/** References between documents after the re-slug migration: every step of every sequence
    follows the new names, so the graph of the store is renamed and otherwise unchanged. */
module MigrateReferences {
  import opened Prelude
  import opened Digraph
  import opened ChainModels
  import opened Envelope
  import opened Migrate
  import Tokens

  /** Old id to new id, for sequences and for context items. */
  datatype Remaps = Remaps(sequences: map<Id, Id>, contexts: map<Id, Id>)

  // ---- what a rewritten step is ----

  function MapIds(remap: map<Id, Id>, ids: seq<Id>): (r: seq<Id>)
    ensures |r| == |ids|
  {
    seq(|ids|, i requires 0 <= i < |ids| => Renamed(remap, ids[i]))
  }

  function RemapNode(r: Remaps, node: Alternative): Alternative {
    node.(sequenceId := Renamed(r.sequences, node.sequenceId), contextIds := MapIds(r.contexts, node.contextIds))
  }

  function RemapAlternatives(r: Remaps, alts: seq<Alternative>): (out: seq<Alternative>)
    ensures |out| == |alts|
  {
    seq(|alts|, k requires 0 <= k < |alts| => RemapNode(r, alts[k]))
  }

  function RemapStep(r: Remaps, step: RawStep): RawStep {
    step.(shorthand := RemapNode(r, step.shorthand), alternatives := RemapAlternatives(r, step.alternatives))
  }

  function RemapSteps(r: Remaps, steps: seq<RawStep>): (out: seq<RawStep>)
    ensures |out| == |steps|
  {
    seq(|steps|, j requires 0 <= j < |steps| => RemapStep(r, steps[j]))
  }

  // ---- the rewriting loops ----

  method RemapStepRefs(r: Remaps, step: RawStep) returns (out: RawStep)
    ensures out == RemapStep(r, step)
  {
    var alts := step.alternatives;
    for k := 0 to |alts|
      invariant |alts| == |step.alternatives|
      invariant forall m :: 0 <= m < k ==> alts[m] == RemapNode(r, step.alternatives[m])
      invariant forall m :: k <= m < |alts| ==> alts[m] == step.alternatives[m]
    {
      alts := alts[k := RemapNode(r, alts[k])];
    }
    assert alts == RemapAlternatives(r, step.alternatives);
    out := step.(shorthand := RemapNode(r, step.shorthand), alternatives := alts);
  }

  method RemapAllSteps(r: Remaps, steps: seq<RawStep>) returns (out: seq<RawStep>)
    ensures out == RemapSteps(r, steps)
  {
    out := steps;
    for j := 0 to |steps|
      invariant |out| == |steps|
      invariant forall m :: 0 <= m < j ==> out[m] == RemapStep(r, steps[m])
      invariant forall m :: j <= m < |steps| ==> out[m] == steps[m]
    {
      var step := RemapStepRefs(r, out[j]);
      out := out[j := step];
    }
  }

  function RemapDocument(r: Remaps, doc: Sequence): Sequence {
    doc.(steps := RemapSteps(r, doc.steps))
  }

  /** `_apply_sequence_refs`: nothing is touched when there is nothing to rename. */
  method ApplySequenceRefs(finals: array<Sequence>, r: Remaps)
    modifies finals
    ensures forall i :: 0 <= i < finals.Length ==> finals[i] == RemapDocument(r, old(finals[i]))
  {
    if r.sequences == map[] && r.contexts == map[] {
      forall i | 0 <= i < finals.Length
        ensures RemapDocument(r, finals[i]) == finals[i]
      {
        NothingToRemap(r, finals[i]);
      }
      return;
    }
    for i := 0 to finals.Length
      invariant forall m :: 0 <= m < i ==> finals[m] == RemapDocument(r, old(finals[m]))
      invariant forall m :: i <= m < finals.Length ==> finals[m] == old(finals[m])
    {
      var steps := RemapAllSteps(r, finals[i].steps);
      finals[i] := finals[i].(steps := steps);
    }
  }

  lemma {:induction false} NothingToRemap(r: Remaps, doc: Sequence)
    requires r.sequences == map[] && r.contexts == map[]
    ensures RemapDocument(r, doc) == doc
  {
    forall j | 0 <= j < |doc.steps|
      ensures RemapStep(r, doc.steps[j]) == doc.steps[j]
    {
      forall node: Alternative
        ensures RemapNode(r, node) == node
      {
        assert MapIds(r.contexts, node.contextIds) == node.contextIds;
      }
      assert RemapAlternatives(r, doc.steps[j].alternatives) == doc.steps[j].alternatives;
    }
    assert RemapSteps(r, doc.steps) == doc.steps;
  }

  // ---- the migration of the sequence store ----

  function Metas(entries: seq<Sequence>): (docs: seq<Meta>)
    ensures |docs| == |entries|
  {
    seq(|entries|, i requires 0 <= i < |entries| => Meta(entries[i].id, entries[i].name, entries[i].createdAt))
  }

  /** Positions below `n` of the documents that do (or do not) carry a UUID, in order. */
  function Positions(docs: seq<Meta>, n: nat, uuid: bool): seq<nat>
    requires n <= |docs|
  {
    if n == 0 then []
    else Positions(docs, n - 1, uuid) + (if IsUuid(docs[n - 1].id) == uuid then [n - 1] else [])
  }

  /** The order the migration writes: kept documents first, then the renamed ones. */
  function FinalOrder(docs: seq<Meta>): seq<nat> {
    Positions(docs, |docs|, false) + Positions(docs, |docs|, true)
  }

  lemma {:induction false} Snoc(front: seq<nat>, n: nat)
    requires Distinct(front) && forall i: nat :: i in front ==> i < n
    ensures Distinct(front + [n])
    ensures forall i: nat :: i in front + [n] <==> i in front || i == n
  {
    assert forall k :: 0 <= k < |front| ==> front[k] in front;
  }

  lemma {:induction false} PositionsList(docs: seq<Meta>, n: nat, uuid: bool)
    requires n <= |docs|
    ensures Distinct(Positions(docs, n, uuid))
    ensures forall i: nat :: i in Positions(docs, n, uuid) <==> i < n && IsUuid(docs[i].id) == uuid
  {
    if n > 0 {
      PositionsList(docs, n - 1, uuid);
      var front := Positions(docs, n - 1, uuid);
      var here := IsUuid(docs[n - 1].id) == uuid;
      assert Positions(docs, n, uuid) == if here then front + [n - 1] else front;
      hide IsUuid, Positions, Distinct;
      Snoc(front, n - 1);
    }
  }

  lemma {:induction false} FinalOrderIsPermutation(docs: seq<Meta>)
    ensures Distinct(FinalOrder(docs))
    ensures forall i: nat :: i in FinalOrder(docs) <==> i < |docs|
    ensures |FinalOrder(docs)| == |docs|
  {
    hide IsUuid, Positions;
    PositionsList(docs, |docs|, false);
    PositionsList(docs, |docs|, true);
    var kept, moved := Positions(docs, |docs|, false), Positions(docs, |docs|, true);
    assert forall k :: 0 <= k < |kept| ==> kept[k] in kept;
    assert forall k :: 0 <= k < |moved| ==> moved[k] in moved;
    PositionsCount(docs, |docs|);
  }

  lemma {:induction false} PositionsCount(docs: seq<Meta>, n: nat)
    requires n <= |docs|
    ensures |Positions(docs, n, false)| + |Positions(docs, n, true)| == n
  {
    if n > 0 {
      PositionsCount(docs, n - 1);
    }
  }

  /** A document with its new id and its references renamed. */
  function Moved(r: Remaps, doc: Sequence, id: Id): Sequence {
    RemapDocument(r, doc.(id := id))
  }

  /** What the migration makes of the store: the plan of the ids, then the references. */
  ghost predicate IsMigration(entries: seq<Sequence>, r: Remaps, order: seq<nat>, ids: seq<Id>, finals: seq<Sequence>) {
    var at := FinalOrder(Metas(entries));
    && IsPlan(Metas(entries), "sequence", order, ids, r.sequences)
    && |ids| == |entries| && |finals| == |entries| && |at| == |entries|
    && (forall k :: 0 <= k < |at| ==> at[k] < |entries| && finals[k] == Moved(r, entries[at[k]], ids[at[k]]))
  }

  /** The node after the migration: its references by their new names, all else as before. */
  ghost predicate FieldsFollow(r: Remaps, before: Alternative, after: Alternative) {
    && after.weight == before.weight && after.targetStep == before.targetStep
    && after.fallThrough == before.fallThrough && after.body == before.body
    && after.sequenceId == (if before.sequenceId in r.sequences then r.sequences[before.sequenceId] else before.sequenceId)
    && |after.contextIds| == |before.contextIds|
    && forall i :: 0 <= i < |before.contextIds| ==>
         after.contextIds[i] ==
           (if before.contextIds[i] in r.contexts then r.contexts[before.contextIds[i]] else before.contextIds[i])
  }

  ghost predicate StepFollows(r: Remaps, before: RawStep, after: RawStep) {
    && after.number == before.number && after.id == before.id && after.name == before.name
    && after.kind == before.kind && after.visitCap == before.visitCap
    && FieldsFollow(r, before.shorthand, after.shorthand)
    && |after.alternatives| == |before.alternatives|
    && forall k :: 0 <= k < |before.alternatives| ==> FieldsFollow(r, before.alternatives[k], after.alternatives[k])
  }

  /** Nothing of a document changes but its id and its references. */
  ghost predicate DocumentFollows(r: Remaps, before: Sequence, id: Id, after: Sequence) {
    && after.id == id && after.name == before.name && after.description == before.description
    && after.createdAt == before.createdAt && after.variables == before.variables
    && |after.steps| == |before.steps|
    && forall j :: 0 <= j < |before.steps| ==> StepFollows(r, before.steps[j], after.steps[j])
  }

  /** A migration puts the kept documents first and the renamed ones behind, each group in the
      order of the store, and changes in each nothing but its id and its references. */
  lemma {:induction false} MigratedDocuments(entries: seq<Sequence>, r: Remaps, order: seq<nat>, ids: seq<Id>, finals: seq<Sequence>)
    returns (at: seq<nat>)
    requires IsMigration(entries, r, order, ids, finals)
    ensures |at| == |finals| == |entries| == |ids| && Distinct(at)
    ensures forall k :: 0 <= k < |at| ==> at[k] < |entries| && DocumentFollows(r, entries[at[k]], ids[at[k]], finals[k])
    ensures forall j, k :: 0 <= j < k < |at| ==>
      && (IsUuid(entries[at[j]].id) ==> IsUuid(entries[at[k]].id))
      && (IsUuid(entries[at[j]].id) == IsUuid(entries[at[k]].id) ==> at[j] < at[k])
  {
    at := FinalOrder(Metas(entries));
    FinalOrderIsPermutation(Metas(entries));
    hide IsUuid, FinalOrder, IsPlan, Moved, DocumentFollows;
    forall k | 0 <= k < |at|
      ensures at[k] < |entries| && DocumentFollows(r, entries[at[k]], ids[at[k]], finals[k])
    {
      MovedFollows(r, entries[at[k]], ids[at[k]]);
    }
    forall j, k | 0 <= j < k < |at|
      ensures IsUuid(entries[at[j]].id) ==> IsUuid(entries[at[k]].id)
      ensures IsUuid(entries[at[j]].id) == IsUuid(entries[at[k]].id) ==> at[j] < at[k]
    {
      KeptFirst(Metas(entries), j, k);
    }
  }

  /** The ids a migration gives: an entry without a UUID keeps its own; any other gets the first
      free variant of the slug of its name, or of `sequence` when the name is blank. */
  lemma {:induction false} MigratedIds(entries: seq<Sequence>, r: Remaps, order: seq<nat>, ids: seq<Id>, finals: seq<Sequence>,
                                       i: nat)
    requires IsMigration(entries, r, order, ids, finals) && i < |entries|
    ensures !IsUuid(entries[i].id) ==> ids[i] == entries[i].id
    ensures IsUuid(entries[i].id) ==>
      var name := entries[i].name;
      var base := if exists j :: 0 <= j < |name| && !Tokens.IsSpace(name[j]) then Slugify(name) else "sequence";
      exists taken :: IsFreeVariant(base, "_", "", taken, ids[i])
  {
    var docs := Metas(entries);
    assert docs[i] == Meta(entries[i].id, entries[i].name, entries[i].createdAt);
    assert ListsMigrating(docs, |docs|, order);
    hide IsUuid, FinalOrder, Moved, Slugify, IsFreeVariant, RemapOf, FreshId;
    if IsUuid(entries[i].id) {
      var k := RankOf(docs, order, i);
      RenamedTo(docs, "sequence", order, ids, r.sequences, k);
    }
  }

  lemma {:induction false} MovedFollows(r: Remaps, doc: Sequence, id: Id)
    ensures DocumentFollows(r, doc, id, Moved(r, doc, id))
  {
    hide FieldsFollow;
    forall node: Alternative
      ensures FieldsFollow(r, node, RemapNode(r, node))
    {
      FieldsRenamed(r, node);
    }
  }

  lemma {:induction false} FieldsRenamed(r: Remaps, node: Alternative)
    ensures FieldsFollow(r, node, RemapNode(r, node))
  {
  }

  ghost predicate Rising(docs: seq<Meta>, n: nat, uuid: bool, p: seq<nat>) {
    && n <= |docs|
    && (forall k :: 0 <= k < |p| ==> p[k] < n && IsUuid(docs[p[k]].id) == uuid)
    && (forall j, k :: 0 <= j < k < |p| ==> p[j] < p[k])
  }

  lemma {:induction false} PositionsRise(docs: seq<Meta>, n: nat, uuid: bool)
    requires n <= |docs|
    ensures Rising(docs, n, uuid, Positions(docs, n, uuid))
  {
    if n > 0 {
      PositionsRise(docs, n - 1, uuid);
      RisesBy(docs, n - 1, uuid, Positions(docs, n - 1, uuid));
      hide IsUuid, Rising;
    }
  }

  lemma {:induction false} RisesBy(docs: seq<Meta>, n: nat, uuid: bool, front: seq<nat>)
    requires n < |docs| && Rising(docs, n, uuid, front)
    ensures Rising(docs, n + 1, uuid, front + (if IsUuid(docs[n].id) == uuid then [n] else []))
  {
    hide IsUuid;
  }

  lemma {:induction false} KeptFirst(docs: seq<Meta>, j: nat, k: nat)
    requires j < k < |FinalOrder(docs)|
    ensures var (a, b) := (FinalOrder(docs)[j], FinalOrder(docs)[k]);
      && a < |docs| && b < |docs| && (IsUuid(docs[a].id) ==> IsUuid(docs[b].id))
      && (IsUuid(docs[a].id) == IsUuid(docs[b].id) ==> a < b)
  {
    PositionsRise(docs, |docs|, false);
    PositionsRise(docs, |docs|, true);
    JoinedRise(docs, Positions(docs, |docs|, false), Positions(docs, |docs|, true), j, k);
    hide IsUuid, Positions, Rising;
  }

  lemma {:induction false} JoinedRise(docs: seq<Meta>, kept: seq<nat>, moved: seq<nat>, j: nat, k: nat)
    requires Rising(docs, |docs|, false, kept) && Rising(docs, |docs|, true, moved) && j < k < |kept + moved|
    ensures var (a, b) := ((kept + moved)[j], (kept + moved)[k]);
      && a < |docs| && b < |docs| && (IsUuid(docs[a].id) ==> IsUuid(docs[b].id))
      && (IsUuid(docs[a].id) == IsUuid(docs[b].id) ==> a < b)
  {
    hide IsUuid;
  }

  method MigrateSequences(entries: seq<Sequence>, contexts: map<Id, Id>)
    returns (finals: array<Sequence>, remap: map<Id, Id>)
    ensures exists order, ids :: IsMigration(entries, Remaps(remap, contexts), order, ids, finals[..])
  {
    var docs := Metas(entries);
    var newIds;
    newIds, remap := PlanType(docs, "sequence");
    ghost var order :| IsPlan(docs, "sequence", order, newIds, remap);
    assert |newIds| == |docs|;
    hide IsPlan, Planned, ListsMigrating, RemapOf, RemapDocument;
    finals := Arrange(entries, newIds);
    ApplySequenceRefs(finals, Remaps(remap, contexts));
    assert IsMigration(entries, Remaps(remap, contexts), order, newIds, finals[..]);
  }

  /** `kept + migrating`, with the new ids. */
  method Arrange(entries: seq<Sequence>, ids: seq<Id>) returns (finals: array<Sequence>)
    requires |ids| == |entries|
    ensures fresh(finals)
    ensures var at := FinalOrder(Metas(entries));
      finals.Length == |at| == |entries| &&
      forall k :: 0 <= k < |at| ==> at[k] < |entries| && finals[k] == entries[at[k]].(id := ids[at[k]])
  {
    var at := FinalOrder(Metas(entries));
    FinalOrderIsPermutation(Metas(entries));
    assert forall k :: 0 <= k < |at| ==> at[k] in at;
    hide FinalOrder;
    finals := new Sequence[|at|](k requires 0 <= k < |at| => entries[at[k]].(id := ids[at[k]]));
  }

  // ---- a renamed graph ----

  /** `g'` is `g` with every node and every reference renamed. */
  ghost predicate RenamedGraph(g: Graph, g': Graph, remap: map<Id, Id>) {
    && (forall a :: a in g ==> Renamed(remap, a) in g' && g'[Renamed(remap, a)] == MapIds(remap, g[a]))
    && (forall a, b :: a in g && b in g && Renamed(remap, a) == Renamed(remap, b) ==> a == b)
    && (forall c :: c in g' ==> exists a :: a in g && Renamed(remap, a) == c)
  }

  /** A dangling reference of `a` to `d` is taken for the new name of `b`. */
  ghost predicate Captures(g: Graph, remap: map<Id, Id>, a: Id, d: Id, b: Id) {
    a in g && d in g[a] && d !in g && b in g && b !in g[a] && Renamed(remap, d) == Renamed(remap, b)
  }

  ghost predicate NoCapture(g: Graph, remap: map<Id, Id>) {
    forall a, d, b :: !Captures(g, remap, a, d, b)
  }

  /** No sequence refers to an id the store does not hold. */
  ghost predicate ReferenceClosed(g: Graph) {
    forall a, d :: a in g && d in g[a] ==> d in g
  }

  ghost predicate SameEdges(g: Graph, g': Graph, remap: map<Id, Id>) {
    forall a, b :: a in g && b in g ==> (Edge(g, a, b) <==> Edge(g', Renamed(remap, a), Renamed(remap, b)))
  }

  lemma {:induction false} EdgeFollows(g: Graph, g': Graph, remap: map<Id, Id>, a: Id, b: Id)
    requires RenamedGraph(g, g', remap) && a in g && b in g
    ensures Edge(g, a, b) ==> Edge(g', Renamed(remap, a), Renamed(remap, b))
    ensures Edge(g', Renamed(remap, a), Renamed(remap, b)) <==>
            Edge(g, a, b) || exists d :: Captures(g, remap, a, d, b)
  {
    var refs, refs' := g[a], g'[Renamed(remap, a)];
    assert forall i :: 0 <= i < |refs| ==> refs'[i] == Renamed(remap, refs[i]);
    assert forall i :: 0 <= i < |refs| ==> refs'[i] in refs' && refs[i] in refs;
    assert forall i :: 0 <= i < |refs| && refs'[i] == Renamed(remap, b) && b !in refs ==> Captures(g, remap, a, refs[i], b);
  }

  /** The renaming is a graph isomorphism exactly when it captures no dangling reference; a
      reference-closed graph has none to capture. */
  lemma {:induction false} IsomorphicIffNoCapture(g: Graph, g': Graph, remap: map<Id, Id>)
    requires RenamedGraph(g, g', remap)
    ensures SameEdges(g, g', remap) <==> NoCapture(g, remap)
    ensures ReferenceClosed(g) ==> SameEdges(g, g', remap)
  {
    hide RenamedGraph, Edge, Captures;
    forall a, b | a in g && b in g
      ensures Edge(g, a, b) ==> Edge(g', Renamed(remap, a), Renamed(remap, b))
      ensures Edge(g', Renamed(remap, a), Renamed(remap, b)) <==>
              Edge(g, a, b) || exists d :: Captures(g, remap, a, d, b)
    {
      EdgeFollows(g, g', remap, a, b);
    }
    forall a, d, b
      ensures Captures(g, remap, a, d, b) ==> a in g && b in g && !Edge(g, a, b) && !ReferenceClosed(g)
    {
      CaptureMeans(g, remap, a, d, b);
    }
    hide ReferenceClosed, Renamed;
  }

  lemma {:induction false} CaptureMeans(g: Graph, remap: map<Id, Id>, a: Id, d: Id, b: Id)
    ensures Captures(g, remap, a, d, b) ==> a in g && b in g && !Edge(g, a, b) && !ReferenceClosed(g)
  {
  }

  /** `a` refers to `b`, or to something dangling that the renaming turns into `b`. */
  ghost predicate RefersAfter(g: Graph, remap: map<Id, Id>, a: Id, b: Id) {
    a in g && b in g && (Edge(g, a, b) || exists d :: Captures(g, remap, a, d, b))
  }

  ghost predicate RefersAt(g: Graph, remap: map<Id, Id>, p: seq<Id>, i: nat)
    requires i + 1 < |p|
  {
    RefersAfter(g, remap, p[i], p[i + 1])
  }

  /** A walk along references and captured references that returns to its start. */
  ghost predicate CycleAfter(g: Graph, remap: map<Id, Id>, p: seq<Id>) {
    && |p| >= 2 && p[0] == p[|p| - 1]
    && (forall i :: 0 <= i < |p| ==> p[i] in g)
    && (forall i :: 0 <= i < |p| - 1 ==> RefersAt(g, remap, p, i))
  }

  ghost function OldName(g: Graph, g': Graph, remap: map<Id, Id>, c: Id): (a: Id)
    requires RenamedGraph(g, g', remap) && c in g'
    ensures a in g && Renamed(remap, a) == c
  {
    var a :| a in g && Renamed(remap, a) == c; a
  }

  lemma {:induction false} CycleFollows(g: Graph, g': Graph, remap: map<Id, Id>, p: seq<Id>)
    requires RenamedGraph(g, g', remap) && CycleAfter(g, remap, p)
    ensures Cycle(g', MapIds(remap, p))
  {
    var q := MapIds(remap, p);
    forall i | 0 <= i < |q| - 1
      ensures StepAt(g', q, i)
    {
      assert RefersAt(g, remap, p, i);
      EdgeFollows(g, g', remap, p[i], p[i + 1]);
    }
  }

  lemma {:induction false} CycleComesFrom(g: Graph, g': Graph, remap: map<Id, Id>, q: seq<Id>) returns (p: seq<Id>)
    requires RenamedGraph(g, g', remap) && Cycle(g', q)
    ensures CycleAfter(g, remap, p)
  {
    p := seq(|q|, i requires 0 <= i < |q| => OldName(g, g', remap, q[i]));
    hide RenamedGraph, Captures;
    forall i | 0 <= i < |p| - 1
      ensures RefersAt(g, remap, p, i)
    {
      assert StepAt(g', q, i);
      EdgeFollows(g, g', remap, p[i], p[i + 1]);
    }
  }

  /** The renamed graph is acyclic if and only if no cycle of the old one can be walked along
      references and captured references. So acyclicity is never gained, and it is lost exactly
      when a capture closes a cycle. */
  lemma {:induction false} AcyclicAfterIff(g: Graph, g': Graph, remap: map<Id, Id>)
    requires RenamedGraph(g, g', remap)
    ensures Acyclic(g') <==> forall p :: !CycleAfter(g, remap, p)
    ensures Acyclic(g') ==> Acyclic(g)
    ensures NoCapture(g, remap) ==> (Acyclic(g) <==> Acyclic(g'))
  {
    hide RenamedGraph;
    if p :| CycleAfter(g, remap, p) {
      CycleFollows(g, g', remap, p);
    }
    if q :| Cycle(g', q) {
      var p := CycleComesFrom(g, g', remap, q);
      OldCycle(g, remap, p);
    }
    if p :| Cycle(g, p) {
      OldCycle(g, remap, p);
    }
  }

  /** Cycles of the old graph are among them, and without captures they are all. */
  lemma {:induction false} OldCycle(g: Graph, remap: map<Id, Id>, p: seq<Id>)
    ensures Cycle(g, p) ==> CycleAfter(g, remap, p)
    ensures NoCapture(g, remap) && CycleAfter(g, remap, p) ==> Cycle(g, p)
  {
    hide Captures;
    if Cycle(g, p) {
      forall i | 0 <= i < |p| - 1
        ensures RefersAt(g, remap, p, i)
      {
        assert StepAt(g, p, i);
      }
    }
    if NoCapture(g, remap) && CycleAfter(g, remap, p) {
      forall i | 0 <= i < |p| - 1
        ensures StepAt(g, p, i)
      {
        assert RefersAt(g, remap, p, i);
      }
    }
  }

  // ---- the migrated store is the renamed store ----

  lemma {:induction false} MapIdsAppend(remap: map<Id, Id>, a: seq<Id>, b: seq<Id>)
    ensures MapIds(remap, a + b) == MapIds(remap, a) + MapIds(remap, b)
  {
  }

  /** The empty reference stays empty and no reference becomes empty. */
  ghost predicate KeepsEmpty(remap: map<Id, Id>) {
    "" !in remap && forall id :: id in remap ==> remap[id] != ""
  }

  lemma {:induction false} AlternativeDepsFollow(r: Remaps, alts: seq<Alternative>)
    requires KeepsEmpty(r.sequences)
    ensures AlternativeDeps(RemapAlternatives(r, alts)) == MapIds(r.sequences, AlternativeDeps(alts))
  {
    if alts != [] {
      var front, last := alts[..|alts| - 1], alts[|alts| - 1];
      AlternativeDepsFollow(r, front);
      assert RemapAlternatives(r, alts)[..|front|] == RemapAlternatives(r, front);
      MapIdsAppend(r.sequences, AlternativeDeps(front), if last.sequenceId != "" then [last.sequenceId] else []);
    }
  }

  lemma {:induction false} StepDepsFollow(r: Remaps, step: RawStep)
    requires KeepsEmpty(r.sequences)
    ensures StepDeps(RemapStep(r, step)) == MapIds(r.sequences, StepDeps(step))
  {
    AlternativeDepsFollow(r, step.alternatives);
    var id := step.shorthand.sequenceId;
    MapIdsAppend(r.sequences, AlternativeDeps(step.alternatives), if id != "" then [id] else []);
  }

  /** Every call of a sequence follows its target. */
  lemma {:induction false} DepsFollow(r: Remaps, steps: seq<RawStep>)
    requires KeepsEmpty(r.sequences)
    ensures Deps(RemapSteps(r, steps)) == MapIds(r.sequences, Deps(steps))
  {
    if steps != [] {
      var front, last := steps[..|steps| - 1], steps[|steps| - 1];
      DepsFollow(r, front);
      StepDepsFollow(r, last);
      assert RemapSteps(r, steps)[..|front|] == RemapSteps(r, front);
      MapIdsAppend(r.sequences, Deps(front), StepDeps(last));
      hide StepDeps;
    }
  }

  lemma {:induction false} FreshIdNotEmpty(base: string, taken: set<string>)
    requires base != ""
    ensures FreshId(base, taken) != ""
  {
    if base in taken {
      var n :| n >= 2 && FreshId(base, taken) == Numbered(base, "_", "", n) && TakenBelow(base, "_", "", taken, n);
      assert |Numbered(base, "_", "", n)| > 0;
    }
  }

  lemma {:induction false} BaseNotEmpty(name: string)
    ensures SlugBase(name, "sequence") != ""
  {
    SlugifyIsSlug(name);
  }

  lemma {:induction false} RemapKeepsEmpty(docs: seq<Meta>, order: seq<nat>, ids: seq<Id>, done: nat)
    requires |ids| == |docs| && done <= |order| && forall k :: 0 <= k < |order| ==> order[k] < |docs|
    requires forall k :: 0 <= k < |order| ==> docs[order[k]].id != "" && ids[order[k]] != ""
    ensures KeepsEmpty(RemapOf(docs, order, ids, done))
  {
    if done > 0 {
      RemapKeepsEmpty(docs, order, ids, done - 1);
    }
  }

  lemma {:induction false} PlanKeepsEmpty(docs: seq<Meta>, order: seq<nat>, ids: seq<Id>)
    requires ListsMigrating(docs, |docs|, order) && Planned(docs, "sequence", order, ids, |order|)
    ensures KeepsEmpty(RemapOf(docs, order, ids, |order|))
  {
    assert |ids| == |docs| && forall k :: 0 <= k < |order| ==> order[k] < |docs|;
    forall k | 0 <= k < |order|
      ensures docs[order[k]].id != "" && ids[order[k]] != ""
    {
      NewIdNotEmpty(docs, order, ids, k);
    }
    hide ListsMigrating, Planned, RemapOf, KeepsEmpty;
    RemapKeepsEmpty(docs, order, ids, |order|);
  }

  lemma {:induction false} NewIdNotEmpty(docs: seq<Meta>, order: seq<nat>, ids: seq<Id>, k: nat)
    requires ListsMigrating(docs, |docs|, order) && Planned(docs, "sequence", order, ids, |order|) && k < |order|
    ensures |ids| == |docs| && order[k] < |docs| && docs[order[k]].id != "" && ids[order[k]] != ""
  {
    var i := order[k];
    assert i in order && IsMigrating(docs, i);
    BaseNotEmpty(docs[i].name);
    FreshIdNotEmpty(SlugBase(docs[i].name, "sequence"), TakenBefore(docs, order, ids, k));
    hide SlugBase, FreshId, TakenBefore;
  }

  /** Facts about one migrated document. */
  lemma {:induction false} MovedDocument(entries: seq<Sequence>, r: Remaps, order: seq<nat>, ids: seq<Id>,
                                         finals: seq<Sequence>, i: nat)
    requires IsMigration(entries, r, order, ids, finals) && UniqueIds(entries) && i < |entries|
    ensures Renamed(r.sequences, entries[i].id) == ids[i]
    ensures exists k :: 0 <= k < |finals| && finals[k] == Moved(r, entries[i], ids[i])
  {
    var docs := Metas(entries);
    assert DistinctOldIds(docs);
    ReferenceFollows(docs, "sequence", order, ids, r.sequences, i);
    FinalOrderIsPermutation(docs);
    assert i in FinalOrder(docs);
  }

  lemma {:induction false} MigratedIdsUnique(entries: seq<Sequence>, r: Remaps, order: seq<nat>, ids: seq<Id>,
                                             finals: seq<Sequence>)
    requires IsMigration(entries, r, order, ids, finals) && UniqueIds(entries)
    ensures Distinct(ids) && UniqueIds(finals)
  {
    var docs := Metas(entries);
    assert KeptDistinct(docs) by {
      hide IsUuid;
    }
    FinalIds(docs, "sequence", order, ids, r.sequences);
    var at := FinalOrder(docs);
    FinalOrderIsPermutation(docs);
    hide IsPlan, FinalOrder, IsUuid, RemapDocument;
    forall j, k | 0 <= j < k < |finals|
      ensures finals[j].id != finals[k].id
    {
      assert finals[j].id == ids[at[j]] && finals[k].id == ids[at[k]] by {
        MovedId(r, entries[at[j]], ids[at[j]]);
        MovedId(r, entries[at[k]], ids[at[k]]);
      }
      assert at[j] != at[k];
    }
  }

  lemma {:induction false} MovedId(r: Remaps, doc: Sequence, id: Id)
    ensures Moved(r, doc, id).id == id && Moved(r, doc, id).steps == RemapSteps(r, doc.steps)
  {
  }

  lemma {:induction false} GraphOfUnique(entries: seq<Sequence>, k: nat)
    requires UniqueIds(entries) && k < |entries|
    ensures entries[k].id in GraphOf(entries) && GraphOf(entries)[entries[k].id] == Deps(entries[k].steps)
  {
    ByIdUnique(entries, k);
  }

  lemma {:induction false} NodeIsEntry(entries: seq<Sequence>, id: Id) returns (k: nat)
    requires id in GraphOf(entries)
    ensures k < |entries| && entries[k].id == id
  {
    ByIdKeys(entries);
    k :| 0 <= k < |entries| && entries[k].id == id;
  }

  lemma {:induction false} NodeFollows(entries: seq<Sequence>, r: Remaps, order: seq<nat>, ids: seq<Id>,
                                       finals: seq<Sequence>, i: nat)
    requires IsMigration(entries, r, order, ids, finals) && UniqueIds(entries) && UniqueIds(finals) && i < |entries|
    ensures |ids| == |entries| && Renamed(r.sequences, entries[i].id) == ids[i]
    ensures ids[i] in GraphOf(finals) && GraphOf(finals)[ids[i]] == MapIds(r.sequences, Deps(entries[i].steps))
  {
    MovedDocument(entries, r, order, ids, finals, i);
    var k :| 0 <= k < |finals| && finals[k] == Moved(r, entries[i], ids[i]);
    MovedId(r, entries[i], ids[i]);
    GraphOfUnique(finals, k);
    PlanKeepsEmpty(Metas(entries), order, ids);
    DepsFollow(r, entries[i].steps);
  }

  lemma {:induction false} FinalIsNode(entries: seq<Sequence>, r: Remaps, order: seq<nat>, ids: seq<Id>,
                                       finals: seq<Sequence>, c: Id) returns (i: nat)
    requires IsMigration(entries, r, order, ids, finals) && c in GraphOf(finals)
    ensures i < |entries| && |ids| == |entries| && ids[i] == c
  {
    var k := NodeIsEntry(finals, c);
    i := FinalOrder(Metas(entries))[k];
    MovedId(r, entries[i], ids[i]);
  }

  /** Migrating a store with unique ids gives unique ids that are no UUIDs, and renames the
      graph of the store; what that means for edges and cycles is said by
      `IsomorphicIffNoCapture` and `AcyclicAfterIff`. */
  lemma {:induction false} MigrationRenamesGraph(entries: seq<Sequence>, r: Remaps, order: seq<nat>, ids: seq<Id>,
                                                 finals: seq<Sequence>)
    requires IsMigration(entries, r, order, ids, finals) && UniqueIds(entries)
    ensures UniqueIds(finals)
    ensures RenamedGraph(GraphOf(entries), GraphOf(finals), r.sequences)
  {
    MigratedIdsUnique(entries, r, order, ids, finals);
    var g, g' := GraphOf(entries), GraphOf(finals);
    hide IsMigration, GraphOf, UniqueIds, Renamed;
    forall a | a in g
      ensures Renamed(r.sequences, a) in g' && g'[Renamed(r.sequences, a)] == MapIds(r.sequences, g[a])
    {
      NodeRenamed(entries, r, order, ids, finals, a);
    }
    forall a, b | a in g && b in g && Renamed(r.sequences, a) == Renamed(r.sequences, b)
      ensures a == b
    {
      NodesDiffer(entries, r, order, ids, finals, a, b);
    }
    forall c | c in g'
      ensures exists a :: a in g && Renamed(r.sequences, a) == c
    {
      var i := FinalIsNode(entries, r, order, ids, finals, c);
      NodeFollows(entries, r, order, ids, finals, i);
      GraphOfUnique(entries, i);
    }
    hide MapIds;
  }

  lemma {:induction false} NodeRenamed(entries: seq<Sequence>, r: Remaps, order: seq<nat>, ids: seq<Id>,
                                       finals: seq<Sequence>, a: Id)
    requires IsMigration(entries, r, order, ids, finals) && UniqueIds(entries) && UniqueIds(finals)
    requires a in GraphOf(entries)
    ensures Renamed(r.sequences, a) in GraphOf(finals)
    ensures GraphOf(finals)[Renamed(r.sequences, a)] == MapIds(r.sequences, GraphOf(entries)[a])
  {
    hide IsMigration, GraphOf, UniqueIds, Renamed, MapIds;
    var i := NodeIsEntry(entries, a);
    NodeFollows(entries, r, order, ids, finals, i);
    GraphOfUnique(entries, i);
  }

  lemma {:induction false} NodesDiffer(entries: seq<Sequence>, r: Remaps, order: seq<nat>, ids: seq<Id>,
                                       finals: seq<Sequence>, a: Id, b: Id)
    requires IsMigration(entries, r, order, ids, finals) && UniqueIds(entries) && UniqueIds(finals) && Distinct(ids)
    requires a in GraphOf(entries) && b in GraphOf(entries)
    ensures Renamed(r.sequences, a) == Renamed(r.sequences, b) ==> a == b
  {
    hide IsMigration, GraphOf, UniqueIds, Renamed, MapIds;
    var i := NodeIsEntry(entries, a);
    var j := NodeIsEntry(entries, b);
    NodeFollows(entries, r, order, ids, finals, i);
    NodeFollows(entries, r, order, ids, finals, j);
  }

  /** What the migration does to the references of a store: the edges stay the same if and only
      if nothing is captured, and the result is acyclic if and only if no cycle can be walked
      along references and captured references; a reference-closed store has no captures. */
  lemma {:induction false} MigrationKeepsAcyclic(entries: seq<Sequence>, r: Remaps, order: seq<nat>, ids: seq<Id>,
                                                 finals: seq<Sequence>)
    requires IsMigration(entries, r, order, ids, finals) && UniqueIds(entries)
    ensures var g, g' := GraphOf(entries), GraphOf(finals);
      && (SameEdges(g, g', r.sequences) <==> NoCapture(g, r.sequences))
      && (Acyclic(g') <==> forall p :: !CycleAfter(g, r.sequences, p))
      && (Acyclic(g') ==> Acyclic(g))
      && (NoCapture(g, r.sequences) || ReferenceClosed(g) ==> (Acyclic(g) <==> Acyclic(g')))
  {
    MigrationRenamesGraph(entries, r, order, ids, finals);
    var g, g' := GraphOf(entries), GraphOf(finals);
    hide *;
    IsomorphicIffNoCapture(g, g', r.sequences);
    AcyclicAfterIff(g, g', r.sequences);
  }

  // ---- a captured reference ----

  const SELF_NAMED := RawStep(1, "", "call", SequenceCall, 100, [NO_FIELDS.(sequenceId := "b")], NO_FIELDS)
  const CAPTURED := Sequence("00000000-0000-0000-0000-000000000000", "B", "", "", [SELF_NAMED], [])

  lemma {:induction false} CapturedId()
    ensures IsUuid(CAPTURED.id) && CAPTURED.id != "b" && Slugify("B") == "b"
    ensures Deps(CAPTURED.steps) == ["b"]
  {
    assert Lower("B") == "b" && "b"[..0] == "";
    assert CollapseRuns("b") == "b";
    assert [SELF_NAMED][..0] == [] && SELF_NAMED.alternatives[..0] == [];
    assert AlternativeDeps(SELF_NAMED.alternatives) == ["b"];
  }

  lemma {:induction false} CapturedPlan(docs: seq<Meta>, order: seq<nat>, ids: seq<Id>, remap: map<Id, Id>)
    requires docs == [Meta(CAPTURED.id, "B", "")] && IsPlan(docs, "sequence", order, ids, remap)
    ensures ids == ["b"] && "b" !in remap
  {
    CapturedId();
    hide IsUuid, Slugify, RemapOf;
    assert Tokens.Strip("B") == "B";
    assert IsMigrating(docs, 0) && 0 in order;
    assert forall k :: 0 <= k < |order| ==> order[k] in order && order[k] == 0;
    assert order[0] == 0;
    assert TakenBefore(docs, order, ids, 0) == {};
    RemapKeys(docs, order, ids, |order|, "b");
  }

  lemma {:induction false} SelfLoop(g: Graph)
    requires "b" in g && g["b"] == ["b"]
    ensures !Acyclic(g)
  {
    assert StepAt(g, ["b", "b"], 0);
    assert Cycle(g, ["b", "b"]);
  }

  lemma {:induction false} OneDangling(g: Graph)
    requires g.Keys == {CAPTURED.id} && g[CAPTURED.id] == ["b"] && "b" !in g
    ensures Acyclic(g)
  {
    forall p
      ensures !Cycle(g, p)
    {
      assert Cycle(g, p) ==> StepAt(g, p, 0);
    }
  }

  /** A dangling reference can be captured, and a cycle closed: a sequence called `B` that calls
      the missing id `b` gets that very id. */
  lemma {:induction false} CaptureCanCloseACycle(r: Remaps, order: seq<nat>, ids: seq<Id>, finals: seq<Sequence>)
    requires IsMigration([CAPTURED], r, order, ids, finals)
    ensures Acyclic(GraphOf([CAPTURED])) && !Acyclic(GraphOf(finals))
  {
    var entries := [CAPTURED];
    CapturedBefore();
    hide *;
    assert UniqueIds(entries) && |entries| == 1 && entries[0] == CAPTURED;
    MigratedIdsUnique(entries, r, order, ids, finals);
    NodeFollows(entries, r, order, ids, finals, 0);
    CapturedAfter(r, order, ids, finals);
    SelfLoop(GraphOf(finals));
  }

  lemma {:induction false} CapturedBefore()
    ensures UniqueIds([CAPTURED]) && Acyclic(GraphOf([CAPTURED]))
  {
    CapturedId();
    hide IsUuid, Slugify, Deps;
    assert ById([CAPTURED][..0]) == map[] && ById([CAPTURED]) == map[CAPTURED.id := CAPTURED];
    OneDangling(GraphOf([CAPTURED]));
  }

  lemma {:induction false} CapturedAfter(r: Remaps, order: seq<nat>, ids: seq<Id>, finals: seq<Sequence>)
    requires IsMigration([CAPTURED], r, order, ids, finals)
    ensures ids == ["b"] && MapIds(r.sequences, Deps(CAPTURED.steps)) == ["b"]
  {
    hide IsUuid, Slugify, Deps, IsPlan;
    assert Metas([CAPTURED]) == [Meta(CAPTURED.id, "B", "")];
    CapturedPlan(Metas([CAPTURED]), order, ids, r.sequences);
    CapturedId();
  }

  // ---- context items ----

  /** A step names `id` as its `m`-th context item, on alternative `k` or, without one, in its
      shorthand fields. */
  predicate NamesContext(step: RawStep, k: Option<nat>, m: nat, id: Id) {
    match k
    case None => m < |step.shorthand.contextIds| && step.shorthand.contextIds[m] == id
    case Some(k) =>
      k < |step.alternatives| && m < |step.alternatives[k].contextIds| && step.alternatives[k].contextIds[m] == id
  }

  /** A step that names an existing context item, on an alternative or in its shorthand fields,
      names it by its new id afterwards. */
  lemma {:induction false} ContextFollows(r: Remaps, doc: Sequence, id: Id, j: nat, k: Option<nat>, m: nat,
                                          items: seq<Meta>, order: seq<nat>, itemIds: seq<Id>, i: nat)
    requires IsPlan(items, "context", order, itemIds, r.contexts) && DistinctOldIds(items)
    requires i < |items| && j < |doc.steps| && NamesContext(doc.steps[j], k, m, items[i].id)
    ensures NamesContext(Moved(r, doc, id).steps[j], k, m, itemIds[i])
  {
    ReferenceFollows(items, "context", order, itemIds, r.contexts, i);
  }

  // ---- a second run ----

  lemma {:induction false} AllKept(docs: seq<Meta>, n: nat)
    requires n <= |docs| && forall i :: 0 <= i < |docs| ==> !IsUuid(docs[i].id)
    ensures Positions(docs, n, false) == seq(n, i requires 0 <= i < n => i)
    ensures Positions(docs, n, true) == []
  {
    if n > 0 {
      AllKept(docs, n - 1);
    }
  }

  /** Running the migration on its own output, sequences and context items, changes nothing:
      neither an id, nor a reference, nor the order. */
  lemma {:induction false} SecondMigrationChangesNothing(
    entries: seq<Sequence>, r: Remaps, order: seq<nat>, ids: seq<Id>, finals: seq<Sequence>,
    items: seq<Meta>, itemOrder: seq<nat>, itemIds: seq<Id>,
    r2: Remaps, order2: seq<nat>, ids2: seq<Id>, finals2: seq<Sequence>,
    items2: seq<Meta>, itemOrder2: seq<nat>, itemIds2: seq<Id>)
    requires IsMigration(entries, r, order, ids, finals) && IsPlan(items, "context", itemOrder, itemIds, r.contexts)
    requires |items2| == |items| && forall i :: 0 <= i < |items| ==> items2[i].id == itemIds[i]
    requires IsMigration(finals, r2, order2, ids2, finals2) && IsPlan(items2, "context", itemOrder2, itemIds2, r2.contexts)
    ensures finals2 == finals && r2 == Remaps(map[], map[]) && itemIds2 == itemIds
  {
    SecondRunChangesNothing(items, "context", itemOrder, itemIds, r.contexts, items2, itemOrder2, itemIds2, r2.contexts);
    var docs, again := Metas(entries), Metas(finals);
    var at := FinalOrder(docs);
    FinalIds(docs, "sequence", order, ids, r.sequences);
    forall k | 0 <= k < |again|
      ensures !IsUuid(again[k].id)
    {
      MovedId(r, entries[at[k]], ids[at[k]]);
    }
    NoUuidNoPlan(again, order2, ids2, r2.sequences);
    AllKept(again, |again|);
    hide IsPlan, IsUuid;
    forall k | 0 <= k < |finals|
      ensures finals2[k] == finals[k]
    {
      NothingToRemap(r2, finals[k]);
    }
  }

  lemma {:induction false} NoUuidNoPlan(docs: seq<Meta>, order: seq<nat>, ids: seq<Id>, remap: map<Id, Id>)
    requires IsPlan(docs, "sequence", order, ids, remap) && forall k :: 0 <= k < |docs| ==> !IsUuid(docs[k].id)
    ensures remap == map[] && |ids| == |docs| && forall k :: 0 <= k < |docs| ==> ids[k] == docs[k].id
  {
    assert forall k :: 0 <= k < |order| ==> order[k] in order && IsMigrating(docs, order[k]);
    assert order == [];
  }
}
