/** The store of chain sequences and its writers: save, upsert, delete, duplicate and the
    profile import. Each checks for cycles only from the entries it changed. */
module SequenceStore {
  import opened Prelude
  import opened Digraph
  import opened CycleCheck
  import opened ChainModels
  import opened Envelope

  datatype StoreError = InvalidSteps | MissingCapability | CycleFound(path: seq<Id>)

  datatype Mode = Replace | Merge

  // ---- steps before they are stored ----

  function NormalizeStep(step: RawStep, position: int): RawStep {
    var numbered := if step.number <= 0 then step.(number := position) else step;
    if numbered.alternatives != [] then numbered
    else numbered.(alternatives := [step.shorthand], shorthand := NO_FIELDS)
  }

  function Normalized(steps: seq<RawStep>): (r: seq<RawStep>)
    ensures |r| == |steps|
  {
    seq(|steps|, i requires 0 <= i < |steps| => NormalizeStep(steps[i], i + 1))
  }

  /** Moving the shorthand fields into an alternative changes no reference. */
  lemma {:induction false} NormalizeKeepsCalls(steps: seq<RawStep>, id: Id)
    ensures Calls(Normalized(steps), id) <==> Calls(steps, id)
  {
    forall i | 0 <= i < |steps|
      ensures CalledBy(Normalized(steps)[i], id) <==> CalledBy(steps[i], id)
    {
      if steps[i].alternatives == [] {
        assert Normalized(steps)[i].alternatives[0] == steps[i].shorthand;
      }
    }
  }

  ghost predicate GotoWellFormed(alt: Alternative, numbers: set<int>) {
    && (alt.targetStep.Some? <==> !alt.fallThrough)
    && (alt.targetStep.Some? ==> alt.targetStep.value in numbers)
  }

  ghost predicate StepWellFormed(step: RawStep, numbers: set<int>) {
    && step.alternatives != []
    && (forall k :: 0 <= k < |step.alternatives| ==> step.alternatives[k].weight >= 1)
    && (step.kind == Goto ==>
      forall k :: 0 <= k < |step.alternatives| ==> GotoWellFormed(step.alternatives[k], numbers))
  }

  ghost function Numbers(steps: seq<RawStep>): set<int> {
    set i | 0 <= i < |steps| :: steps[i].number
  }

  /** A sequence that may be stored: distinct positive step numbers, weights of at least one,
      and every goto either falls through or names a step of the same sequence. */
  ghost predicate WellFormed(steps: seq<RawStep>) {
    && (forall i :: 0 <= i < |steps| ==> steps[i].number > 0)
    && (forall i, j :: 0 <= i < j < |steps| ==> steps[i].number != steps[j].number)
    && (forall i :: 0 <= i < |steps| ==> StepWellFormed(steps[i], Numbers(steps)))
  }

  /** The checks of one step's alternatives. */
  method ValidateAlternatives(step: RawStep, numbers: set<int>) returns (ok: bool)
    ensures ok <==> StepWellFormed(step, numbers)
  {
    var alts := step.alternatives;
    if alts == [] {
      return false;
    }
    for k := 0 to |alts|
      invariant forall m :: 0 <= m < k ==> alts[m].weight >= 1
    {
      if alts[k].weight < 1 {
        return false;
      }
    }
    if step.kind == Goto {
      for k := 0 to |alts|
        invariant forall m :: 0 <= m < k ==> GotoWellFormed(alts[m], numbers)
      {
        if alts[k].targetStep.Some? == alts[k].fallThrough {
          assert !GotoWellFormed(alts[k], numbers);
          return false;
        }
        if alts[k].targetStep.Some? && alts[k].targetStep.value !in numbers {
          assert !GotoWellFormed(alts[k], numbers);
          return false;
        }
      }
    }
    return true;
  }

  method ValidateSteps(steps: seq<RawStep>) returns (ok: bool)
    ensures ok <==> WellFormed(steps)
  {
    hide StepWellFormed, Numbers;
    NumbersGrow(steps);
    var numbers: set<int> := {};
    for i := 0 to |steps|
      invariant numbers == Numbers(steps[..i])
      invariant forall j :: 0 <= j < i ==> steps[j].number > 0
      invariant forall j, k :: 0 <= j < k < i ==> steps[j].number != steps[k].number
    {
      var n := steps[i].number;
      if n <= 0 {
        return false;
      }
      if n in numbers {
        return false;
      }
      numbers := numbers + {n};
    }
    assert steps[..|steps|] == steps;
    for i := 0 to |steps|
      invariant forall j :: 0 <= j < i ==> StepWellFormed(steps[j], numbers)
    {
      var ok1 := ValidateAlternatives(steps[i], numbers);
      if !ok1 {
        return false;
      }
    }
    return true;
  }

  lemma {:induction false} NumbersGrow(steps: seq<RawStep>)
    ensures Numbers(steps[..0]) == {}
    ensures forall i :: 0 <= i < |steps| ==> Numbers(steps[..i + 1]) == Numbers(steps[..i]) + {steps[i].number}
    ensures forall i, n :: 0 <= i < |steps| ==>
      (n in Numbers(steps[..i]) <==> exists j :: 0 <= j < i && steps[j].number == n)
  {
    forall i | 0 <= i < |steps|
      ensures Numbers(steps[..i + 1]) == Numbers(steps[..i]) + {steps[i].number}
      ensures forall n :: n in Numbers(steps[..i]) <==> exists j :: 0 <= j < i && steps[j].number == n
    {
      var s, t := steps[..i], steps[..i + 1];
      assert t[i] == steps[i] && forall j :: 0 <= j < i ==> s[j] == t[j] == steps[j];
    }
  }

  /** What a step given at `position` is stored as: a positive number stays, any other becomes
      the position; without alternatives the shorthand becomes the one; all else is kept. */
  ghost predicate StoredAs(given: RawStep, position: int, stored: RawStep) {
    && stored.number == (if given.number > 0 then given.number else position)
    && stored.id == given.id && stored.name == given.name && stored.kind == given.kind && stored.visitCap == given.visitCap
    && if given.alternatives != [] then stored.alternatives == given.alternatives && stored.shorthand == given.shorthand
       else stored.alternatives == [given.shorthand] && stored.shorthand == NO_FIELDS
  }

  ghost predicate AllStoredAs(given: seq<RawStep>, stored: seq<RawStep>) {
    |stored| == |given| && forall i :: 0 <= i < |given| ==> StoredAs(given[i], i + 1, stored[i])
  }

  /** Normalizing stores the steps so and in no other way; it leaves steps that may be stored as
      they are. */
  lemma {:induction false} NormalizedIsStored(steps: seq<RawStep>, stored: seq<RawStep>)
    ensures AllStoredAs(steps, stored) <==> stored == Normalized(steps)
    ensures WellFormed(steps) ==> AllStoredAs(steps, steps)
  {
    hide Numbers;
    forall i | 0 <= i < |steps|
      ensures StoredAs(steps[i], i + 1, Normalized(steps)[i])
    {
    }
    if AllStoredAs(steps, stored) {
      forall i | 0 <= i < |steps|
        ensures stored[i] == Normalized(steps)[i]
      {
        assert StoredAs(steps[i], i + 1, stored[i]);
      }
    }
  }

  /** Some form in which the steps are stored may be stored. */
  ghost predicate Storable(steps: seq<RawStep>) {
    exists stored :: AllStoredAs(steps, stored) && WellFormed(stored)
  }

  lemma {:induction false} StorableIff(steps: seq<RawStep>)
    ensures Storable(steps) <==> WellFormed(Normalized(steps))
    ensures AllStoredAs(steps, Normalized(steps))
    ensures WellFormed(steps) ==> Storable(steps) && Normalized(steps) == steps
  {
    NormalizedIsStored(steps, Normalized(steps));
    NormalizedIsStored(steps, steps);
    hide WellFormed, AllStoredAs, Normalized;
    if stored :| AllStoredAs(steps, stored) && WellFormed(stored) {
      NormalizedIsStored(steps, stored);
    }
  }

  // ---- the cycle check over a list of entries ----

  method CheckForCycles(entries: seq<Sequence>, root: Id) returns (found: Option<seq<Id>>)
    ensures found.Some? <==> CycleReachable(GraphOf(entries), root)
    ensures found.Some? ==> Lasso(GraphOf(entries), root, found.value)
  {
    var graph: Graph := map[];
    for i := 0 to |entries|
      invariant graph == GraphOf(entries[..i])
    {
      var deps := DirectDeps(entries[i].steps);
      graph := graph[entries[i].id := deps];
      assert entries[..i + 1][..i] == entries[..i];
    }
    assert entries[..|entries|] == entries;
    found := CheckFrom(graph, root);
  }

  // ---- what the writers make of the entries ----

  /** Position of the first entry called `name`, or the length. */
  function FirstNamed(entries: seq<Sequence>, name: string): (k: nat)
    ensures k <= |entries|
    ensures k < |entries| ==> entries[k].name == name
    ensures forall j :: 0 <= j < k ==> entries[j].name != name
  {
    if entries == [] || entries[0].name == name then 0
    else
      assert forall j :: 1 <= j < |entries| ==> entries[j] == entries[1..][j - 1];
      1 + FirstNamed(entries[1..], name)
  }

  /** Position of the first entry with `id`, or the length. */
  function FirstWithId(entries: seq<Sequence>, id: Id): (k: nat)
    ensures k <= |entries|
    ensures k < |entries| ==> entries[k].id == id
    ensures forall j :: 0 <= j < k ==> entries[j].id != id
  {
    if entries == [] || entries[0].id == id then 0
    else
      assert forall j :: 1 <= j < |entries| ==> entries[j] == entries[1..][j - 1];
      1 + FirstWithId(entries[1..], id)
  }

  ghost function SavedEntry(entries: seq<Sequence>, name: string, steps: seq<RawStep>, variables: seq<string>,
                            now: string): Sequence
  {
    var k := FirstNamed(entries, name);
    if k < |entries| then entries[k].(steps := Normalized(steps), variables := variables)
    else Sequence(FreshId(Slugify(name), Ids(entries)), name, "", now, Normalized(steps), variables)
  }

  ghost function UpsertedEntry(entries: seq<Sequence>, env: Sequence, now: string): Sequence {
    var k := FirstWithId(entries, env.id);
    var created := if k < |entries| then entries[k].createdAt else env.createdAt;
    env.(steps := Normalized(env.steps), createdAt := if created == "" then now else created)
  }

  /** The first entry called `name` got new steps and variables and kept the rest; without one a
      new entry under a fresh id was appended. */
  ghost predicate IsSaved(before: seq<Sequence>, name: string, variables: seq<string>, now: string,
                          entry: Sequence, after: seq<Sequence>)
  {
    && entry.name == name && entry.variables == variables
    && if exists k :: 0 <= k < |before| && before[k].name == name then
         exists k :: 0 <= k < |before| && before[k].name == name && (forall j :: 0 <= j < k ==> before[j].name != name)
                     && after == before[k := entry] && entry.id == before[k].id
                     && entry.description == before[k].description && entry.createdAt == before[k].createdAt
       else
         && after == before + [entry] && entry.id == FreshId(Slugify(name), Ids(before))
         && entry.description == "" && entry.createdAt == now
  }

  /** The first entry with the document's id gave way to the document and only passed on its
      creation time; without one the document was appended. */
  ghost predicate IsUpserted(before: seq<Sequence>, env: Sequence, now: string, entry: Sequence, after: seq<Sequence>) {
    && entry.id == env.id && entry.name == env.name && entry.description == env.description
    && entry.variables == env.variables
    && if env.id in Ids(before) then
         exists k :: 0 <= k < |before| && before[k].id == env.id && (forall j :: 0 <= j < k ==> before[j].id != env.id)
                     && after == before[k := entry]
                     && entry.createdAt == (if before[k].createdAt != "" then before[k].createdAt else now)
       else
         after == before + [entry] && entry.createdAt == (if env.createdAt != "" then env.createdAt else now)
  }

  /** `entries` with `entry` put at position `k`, appended when `k` is the length. */
  function Put(entries: seq<Sequence>, k: nat, entry: Sequence): seq<Sequence>
    requires k <= |entries|
  {
    if k < |entries| then entries[k := entry] else entries + [entry]
  }

  /** Replacing an entry by one with the same id, or appending one with a new id, keeps ids
      unique and changes the graph at that id only. */
  lemma {:induction false} PutIsLocal(entries: seq<Sequence>, k: nat, entry: Sequence)
    requires k <= |entries|
    requires if k < |entries| then entries[k].id == entry.id else entry.id !in Ids(entries)
    ensures UniqueIds(entries) ==> UniqueIds(Put(entries, k, entry))
    ensures forall v :: v in GraphOf(Put(entries, k, entry)) && v != entry.id ==>
      v in GraphOf(entries) && GraphOf(Put(entries, k, entry))[v] == GraphOf(entries)[v]
  {
    if k < |entries| {
      ByIdUpdate(entries, k, entry);
    } else {
      var next := entries + [entry];
      assert next[..|next| - 1] == entries;
      assert forall i :: 0 <= i < |entries| ==> entries[i].id in Ids(entries);
    }
  }

  /** A check from the id that was written decides whether the whole store stays acyclic. */
  lemma {:induction false} PutCheckSuffices(entries: seq<Sequence>, k: nat, entry: Sequence)
    requires Acyclic(GraphOf(entries)) && k <= |entries|
    requires if k < |entries| then entries[k].id == entry.id else entry.id !in Ids(entries)
    ensures Acyclic(GraphOf(Put(entries, k, entry))) <==>
            !CycleReachable(GraphOf(Put(entries, k, entry)), entry.id)
  {
    PutIsLocal(entries, k, entry);
    LocalCheckSuffices(GraphOf(entries), GraphOf(Put(entries, k, entry)), {entry.id});
  }

  /** The same for any store; on one that has a cycle already the check says nothing of it. */
  lemma {:induction false} PutChecked(entries: seq<Sequence>, k: nat, entry: Sequence)
    requires k <= |entries|
    requires if k < |entries| then entries[k].id == entry.id else entry.id !in Ids(entries)
    ensures Acyclic(GraphOf(entries)) ==>
      (CycleReachable(GraphOf(Put(entries, k, entry)), entry.id) <==> !Acyclic(GraphOf(Put(entries, k, entry))))
  {
    if Acyclic(GraphOf(entries)) {
      PutCheckSuffices(entries, k, entry);
    }
  }

  // ---- duplicate, which runs no check ----

  /** Some walk of the graph leads from `from` to a node that refers to `target`. */
  ghost predicate RefersEventually(g: Graph, from: Id, target: Id) {
    exists p :: RefersVia(g, from, target, p)
  }

  ghost predicate RefersVia(g: Graph, from: Id, target: Id, p: seq<Id>) {
    |p| > 0 && Walk(g, p) && p[0] == from && target in g[p[|p| - 1]]
  }

  /** Copying a node under a new id keeps the graph acyclic exactly when nothing the original
      reaches (itself included) already refers to the new id. */
  lemma {:induction false} CopyAcyclicIff(g: Graph, source: Id, copy: Id)
    requires Acyclic(g) && source in g && copy !in g
    ensures Acyclic(g[copy := g[source]]) <==> !RefersEventually(g, source, copy)
  {
    var g' := g[copy := g[source]];
    if p :| RefersVia(g, source, copy, p) {
      ClosedByCopy(g, source, copy, p);
    }
    if !Acyclic(g') {
      LocalCheckSuffices(g, g', {copy});
      var p :| Lasso(g', copy, p);
      OpenedAtCopy(g, source, copy, p);
    }
  }

  lemma {:induction false} CopyIsChecked(entries: seq<Sequence>, k: nat, copy: Sequence)
    requires Acyclic(GraphOf(entries)) && UniqueIds(entries)
    requires k < |entries| && copy.steps == entries[k].steps && copy.id !in Ids(entries)
    ensures UniqueIds(entries + [copy])
    ensures Acyclic(GraphOf(entries + [copy])) <==> !RefersEventually(GraphOf(entries), entries[k].id, copy.id)
  {
    ByIdUnique(entries, k);
    ByIdKeys(entries);
    var g := GraphOf(entries);
    assert (entries + [copy])[..|entries|] == entries;
    assert GraphOf(entries + [copy]) == g[copy.id := g[entries[k].id]];
    CopyAcyclicIff(g, entries[k].id, copy.id);
    PutIsLocal(entries, |entries|, copy);
  }

  lemma {:induction false} ClosedByCopy(g: Graph, source: Id, copy: Id, p: seq<Id>)
    requires source in g && copy !in g && RefersVia(g, source, copy, p)
    ensures !Acyclic(g[copy := g[source]])
  {
    var g' := g[copy := g[source]];
    var q := [copy] + p[1..] + [copy];
    forall i | 0 <= i < |q| - 1
      ensures StepAt(g', q, i)
    {
      if i < |p| - 1 {
        assert StepAt(g, p, i);
      }
    }
    assert Cycle(g', q);
  }

  /** A lasso from the copy leads back to the copy, since the rest is acyclic; its first
      return gives a walk from the original to a reference to the copy. */
  lemma {:induction false} OpenedAtCopy(g: Graph, source: Id, copy: Id, p: seq<Id>)
    requires Acyclic(g) && source in g && copy !in g
    requires Lasso(g[copy := g[source]], copy, p)
    ensures RefersEventually(g, source, copy)
  {
    var g' := g[copy := g[source]];
    var back := ReturnsToCopy(g, source, copy, p);
    var q := [source] + p[1..back];
    forall i | 0 <= i < |q| - 1
      ensures StepAt(g, q, i)
    {
      assert StepAt(g', p, i);
    }
    assert StepAt(g', p, back - 1);
    assert RefersVia(g, source, copy, q);
  }

  lemma {:induction false} ReturnsToCopy(g: Graph, source: Id, copy: Id, p: seq<Id>) returns (back: nat)
    requires Acyclic(g) && source in g && copy !in g
    requires Lasso(g[copy := g[source]], copy, p)
    ensures 1 <= back < |p| && p[back] == copy
    ensures forall i :: 1 <= i < back ==> p[i] != copy
  {
    back := 1;
    while back < |p| && p[back] != copy
      invariant 1 <= back <= |p|
      invariant forall i :: 1 <= i < back ==> p[i] != copy
    {
      back := back + 1;
    }
    if back == |p| {
      var g' := g[copy := g[source]];
      var k :| 0 <= k < |p| - 1 && p[k] == p[|p| - 1];
      var q := p[k..];
      forall i | 0 <= i < |q| - 1
        ensures StepAt(g, q, i)
      {
        assert StepAt(g', p, k + i);
      }
      assert Cycle(g, q);
    }
  }

  const SELF_CALL := RawStep(1, "", "call", SequenceCall, 100, [NO_FIELDS.(sequenceId := "a_copy")], NO_FIELDS)
  const COPIED := Sequence("a", "A", "", "", [SELF_CALL], [])

  /** The failing family is not empty: a sequence called `A` that refers to the id its own
      copy will get. The store is acyclic before the copy and cyclic after it. */
  lemma {:induction false} CopyCanCloseACycle()
    ensures UniqueIds([COPIED]) && Acyclic(GraphOf([COPIED]))
    ensures FreshId(Slugify("A (copy)"), {"a"}) == "a_copy"
    ensures !Acyclic(GraphOf([COPIED, COPIED.(id := "a_copy", name := "A (copy)")]))
  {
    var copy := COPIED.(id := "a_copy", name := "A (copy)");
    SlugOfCopy();
    DepsOfCopied();
    assert [COPIED][..0] == [] && [COPIED, copy][..1] == [COPIED];
    assert ById([COPIED]) == map["a" := COPIED];
    assert ById([COPIED, copy]) == map["a" := COPIED, "a_copy" := copy];
    DanglingThenClosed(GraphOf([COPIED]), GraphOf([COPIED, copy]));
  }

  lemma {:induction false} DanglingThenClosed(g: Graph, g': Graph)
    requires g.Keys == {"a"} && g["a"] == ["a_copy"]
    requires g'.Keys == {"a", "a_copy"} && g'["a_copy"] == ["a_copy"]
    ensures Acyclic(g) && !Acyclic(g')
  {
    forall p
      ensures !Cycle(g, p)
    {
      assert Cycle(g, p) ==> StepAt(g, p, 0);
    }
    assert StepAt(g', ["a_copy", "a_copy"], 0);
    assert Cycle(g', ["a_copy", "a_copy"]);
  }

  lemma {:induction false} DepsOfCopied()
    ensures Deps([SELF_CALL]) == ["a_copy"]
  {
    assert [SELF_CALL][..0] == [] && SELF_CALL.alternatives[..0] == [];
    assert AlternativeDeps(SELF_CALL.alternatives) == ["a_copy"];
  }

  /** One more character of a text whose collapsed form is known. */
  lemma {:induction false} CollapseNext(front: string, c: char, done: string, text: string, next: string)
    requires CollapseRuns(front) == done && text == front + [c] && next == Behind(done, c)
    ensures CollapseRuns(text) == next
  {
    CollapseSnoc(front, c);
  }

  lemma {:induction false} SlugOfCopy()
    ensures Slugify("A (copy)") == "a_copy"
  {
    assert CollapseRuns("a (copy)") == "a_copy_" by {
      assert CollapseRuns("") == "";
      hide CollapseRuns;
      CollapseNext("", 'a', "", "a", "a");
      CollapseNext("a", ' ', "a", "a ", "a_");
      CollapseNext("a ", '(', "a_", "a (", "a_");
      CollapseNext("a (", 'c', "a_", "a (c", "a_c");
      CollapseNext("a (c", 'o', "a_c", "a (co", "a_co");
      CollapseNext("a (co", 'p', "a_co", "a (cop", "a_cop");
      CollapseNext("a (cop", 'y', "a_cop", "a (copy", "a_copy");
      CollapseNext("a (copy", ')', "a_copy", "a (copy)", "a_copy_");
    }
    hide CollapseRuns;
    assert Lower("A (copy)") == "a (copy)";
    assert "a_copy_" == "a_copy" + "_";
    OneToStrip("a_copy");
    NothingToStrip("a_copy");
  }

  // ---- profile import ----

  /** The ids of a list in order of first occurrence: the key order of a Python dict. */
  function KeyOrder(entries: seq<Sequence>): seq<Id> {
    if entries == [] then []
    else
      var front := KeyOrder(entries[..|entries| - 1]);
      var id := entries[|entries| - 1].id;
      if id in front then front else front + [id]
  }

  lemma {:induction false} KeyOrderKeys(entries: seq<Sequence>)
    ensures Distinct(KeyOrder(entries))
    ensures forall id :: id in KeyOrder(entries) <==> id in ById(entries)
  {
    if entries != [] {
      KeyOrderKeys(entries[..|entries| - 1]);
    }
  }

  /** What the dict holds after `existing` and then `incoming` were written to it. */
  function Merged(existing: seq<Sequence>, incoming: seq<Sequence>): seq<Sequence> {
    var all := existing + incoming;
    KeyOrderKeys(all);
    var keys := KeyOrder(all);
    seq(|keys|, i requires 0 <= i < |keys| => assert keys[i] in keys; ById(all)[keys[i]])
  }

  lemma {:induction false} ByIdOfList(m: map<Id, Sequence>, keys: seq<Id>, list: seq<Sequence>)
    requires Distinct(keys) && |list| == |keys|
    requires forall i :: 0 <= i < |keys| ==> keys[i] in m && list[i] == m[keys[i]] && list[i].id == keys[i]
    ensures forall id :: id in ById(list) <==> id in keys
    ensures forall id :: id in keys ==> ById(list)[id] == m[id]
  {
    if list != [] {
      var n := |list| - 1;
      ByIdOfList(m, keys[..n], list[..n]);
      assert keys == keys[..n] + [keys[n]];
    }
  }

  /** A merge has unique ids and holds, for each id, the last entry written with it. */
  lemma {:induction false} MergedIsById(existing: seq<Sequence>, incoming: seq<Sequence>)
    ensures UniqueIds(Merged(existing, incoming))
    ensures ById(Merged(existing, incoming)) == ById(existing + incoming)
  {
    var all := existing + incoming;
    KeyOrderKeys(all);
    ByIdKeys(all);
    var keys := KeyOrder(all);
    var list := Merged(existing, incoming);
    forall i | 0 <= i < |keys|
      ensures keys[i] in ById(all) && list[i] == ById(all)[keys[i]] && list[i].id == keys[i]
    {
      assert keys[i] in keys;
    }
    ByIdOfList(ById(all), keys, list);
    assert ById(list).Keys == ById(all).Keys;
  }

  /** Each id once, in the order in which the ids first occur, with the last entry of that id. */
  ghost predicate IsMerge(existing: seq<Sequence>, incoming: seq<Sequence>, merged: seq<Sequence>) {
    var all := existing + incoming;
    && UniqueIds(merged) && Ids(merged) == Ids(all)
    && (forall i :: 0 <= i < |merged| ==> LastWith(all, merged[i]))
    && (forall i, j :: 0 <= i < j < |merged| ==> FirstWithId(all, merged[i].id) < FirstWithId(all, merged[j].id))
  }

  /** `entry` is the last one in the list with its id. */
  ghost predicate LastWith(entries: seq<Sequence>, entry: Sequence) {
    exists i :: 0 <= i < |entries| && entries[i] == entry && forall j :: i < j < |entries| ==> entries[j].id != entry.id
  }

  /** Of several entries with one id the last counts. */
  lemma {:induction false} ByIdIsLast(entries: seq<Sequence>, id: Id)
    requires id in ById(entries)
    ensures LastWith(entries, ById(entries)[id]) && ById(entries)[id].id == id
  {
    var n := |entries| - 1;
    var front, last := entries[..n], entries[n];
    if last.id == id {
      assert entries[n] == ById(entries)[id];
    } else {
      ByIdIsLast(front, id);
      var i :| 0 <= i < |front| && front[i] == ById(front)[id] && forall j :: i < j < |front| ==> front[j].id != id;
      assert entries[i] == ById(entries)[id] && forall j :: i < j < |entries| ==> entries[j].id != id;
    }
  }

  lemma {:induction false} FirstInFront(front: seq<Sequence>, last: Sequence, id: Id)
    ensures var (k, all) := (FirstWithId(front + [last], id), front + [last]);
      k == if id in Ids(front) then FirstWithId(front, id) else if last.id == id then |front| else |front| + 1
  {
    var all, k := front + [last], FirstWithId(front + [last], id);
    assert forall j :: 0 <= j < |front| ==> all[j] == front[j];
    assert all[|front|] == last;
  }

  /** The keys are ids of the list, in the order in which these first occur. */
  ghost predicate InFirstOrder(entries: seq<Sequence>, keys: seq<Id>) {
    && (forall i :: 0 <= i < |keys| ==> keys[i] in Ids(entries))
    && (forall i, j :: 0 <= i < j < |keys| ==> FirstWithId(entries, keys[i]) < FirstWithId(entries, keys[j]))
  }

  lemma {:induction false} KeysInOrder(entries: seq<Sequence>)
    ensures InFirstOrder(entries, KeyOrder(entries))
  {
    if entries != [] {
      var front, last := entries[..|entries| - 1], entries[|entries| - 1];
      assert entries == front + [last];
      KeysInOrder(front);
      KeyOrderKeys(front);
      ByIdKeys(front);
      var keys := KeyOrder(front);
      assert KeyOrder(entries) == if last.id in keys then keys else keys + [last.id];
      hide *;
      KeysGrow(front, last, keys);
    }
  }

  lemma {:induction false} KeysGrow(front: seq<Sequence>, last: Sequence, keys: seq<Id>)
    requires InFirstOrder(front, keys)
    ensures InFirstOrder(front + [last], keys)
    ensures last.id !in Ids(front) ==> InFirstOrder(front + [last], keys + [last.id])
  {
    IdsSnoc(front, last);
    hide Ids, FirstWithId;
    forall i | 0 <= i < |keys|
      ensures FirstWithId(front + [last], keys[i]) == FirstWithId(front, keys[i]) < |front|
    {
      FirstInFront(front, last, keys[i]);
      FirstFound(front, keys[i]);
    }
    FirstInFront(front, last, last.id);
  }

  lemma {:induction false} FirstFound(entries: seq<Sequence>, id: Id)
    ensures id in Ids(entries) <==> FirstWithId(entries, id) < |entries|
  {
  }

  lemma {:induction false} MergedIsMerge(existing: seq<Sequence>, incoming: seq<Sequence>)
    ensures IsMerge(existing, incoming, Merged(existing, incoming))
  {
    var all, merged := existing + incoming, Merged(existing, incoming);
    var keys := KeyOrder(all);
    forall i | 0 <= i < |keys|
      ensures merged[i].id == keys[i] && LastWith(all, merged[i])
    {
      KeyOrderKeys(all);
      assert keys[i] in keys;
      ByIdIsLast(all, keys[i]);
    }
    assert |merged| == |keys|;
    hide *;
    MergedIsById(existing, incoming);
    ByIdKeys(all);
    ByIdKeys(merged);
    KeysInOrder(all);
    MergeFrom(existing, incoming, merged, keys);
  }

  lemma {:induction false} MergeFrom(existing: seq<Sequence>, incoming: seq<Sequence>, merged: seq<Sequence>, keys: seq<Id>)
    requires var all := existing + incoming;
      && UniqueIds(merged) && Ids(merged) == Ids(all) && InFirstOrder(all, keys) && |merged| == |keys|
      && forall i :: 0 <= i < |keys| ==> merged[i].id == keys[i] && LastWith(all, merged[i])
    ensures IsMerge(existing, incoming, merged)
  {
    hide UniqueIds, Ids, FirstWithId, LastWith;
  }

  lemma {:induction false} ByIdAppend(existing: seq<Sequence>, incoming: seq<Sequence>, id: Id)
    requires id !in Ids(incoming)
    ensures id in ById(existing + incoming) <==> id in ById(existing)
    ensures id in ById(existing) ==> ById(existing + incoming)[id] == ById(existing)[id]
  {
    if incoming == [] {
      assert existing + incoming == existing;
    } else {
      var n := |incoming| - 1;
      var all := existing + incoming;
      assert all[..|all| - 1] == existing + incoming[..n];
      assert incoming[n].id in Ids(incoming);
      assert forall i :: 0 <= i < n ==> incoming[..n][i] == incoming[i];
      assert Ids(incoming[..n]) <= Ids(incoming);
      ByIdAppend(existing, incoming[..n], id);
    }
  }

  ghost function Imported(index: seq<Sequence>, incoming: seq<Sequence>, mode: Mode): seq<Sequence> {
    if mode == Replace then incoming else Merged(index, incoming)
  }

  /** Checking from every imported id decides for the whole store, in both modes. */
  lemma {:induction false} ImportCheckSuffices(index: seq<Sequence>, incoming: seq<Sequence>, mode: Mode)
    requires Acyclic(GraphOf(index))
    ensures var final := Imported(index, incoming, mode);
      Acyclic(GraphOf(final)) <==>
      forall i :: 0 <= i < |incoming| ==> !CycleReachable(GraphOf(final), incoming[i].id)
  {
    var final := Imported(index, incoming, mode);
    var g0, g1 := GraphOf(index), GraphOf(final);
    forall v | v in g1 && v !in Ids(incoming)
      ensures v in g0 && g1[v] == g0[v]
    {
      if mode == Merge {
        MergedIsById(index, incoming);
        ByIdAppend(index, incoming, v);
      } else {
        ByIdKeys(incoming);
      }
    }
    LocalCheckSuffices(g0, g1, Ids(incoming));
    assert forall i :: 0 <= i < |incoming| ==> incoming[i].id in Ids(incoming);
  }

  ghost predicate NoCycleFrom(final: seq<Sequence>, incoming: seq<Sequence>) {
    forall i :: 0 <= i < |incoming| ==> !CycleReachable(GraphOf(final), incoming[i].id)
  }

  /** A merge needs an acyclic store before it; a replacement needs nothing. */
  lemma {:induction false} ImportChecked(index: seq<Sequence>, incoming: seq<Sequence>, mode: Mode)
    ensures var final := Imported(index, incoming, mode);
      Acyclic(GraphOf(index)) || mode == Replace ==> (NoCycleFrom(final, incoming) <==> Acyclic(GraphOf(final)))
  {
    if Acyclic(GraphOf(index)) {
      ImportCheckSuffices(index, incoming, mode);
    } else if mode == Replace {
      EmptyIsAcyclic();
      ImportCheckSuffices([], incoming, Replace);
    }
  }

  lemma {:induction false} EmptyIsAcyclic()
    ensures Acyclic(GraphOf([]))
  {
  }

  // ---- the store ----

  /** The index file of the store. Every writer works on a copy of the entries and writes the
      index only after its checks passed. */
  class Store {
    var index: seq<Sequence>

    constructor ()
      ensures index == [] && UniqueIds(index) && Acyclic(GraphOf(index))
    {
      index := [];
    }

    /** `save_sequence`: replaces the steps of the first sequence with this name, or appends a
        new one under a fresh id. `capable` is the answer of the preset check. */
    method Save(name: string, steps: seq<RawStep>, variables: seq<string>, capable: bool, now: string)
      returns (r: Result<Sequence, StoreError>)
      modifies this
      ensures old(Acyclic(GraphOf(index))) ==> Acyclic(GraphOf(index))
      ensures old(UniqueIds(index)) ==> UniqueIds(index)
      ensures var entry := SavedEntry(old(index), name, steps, variables, now);
        var next := Put(old(index), FirstNamed(old(index), name), entry);
        && index == (if r.Ok? then next else old(index))
        && (r.Ok? ==> r.value == entry)
        && (r.Ok? <==> WellFormed(Normalized(steps)) && capable && !CycleReachable(GraphOf(next), entry.id))
        && (old(Acyclic(GraphOf(index))) ==>
            (r.Ok? <==> WellFormed(Normalized(steps)) && capable && Acyclic(GraphOf(next))))
        && (r.Err? && r.error.CycleFound? ==> Lasso(GraphOf(next), entry.id, r.error.path))
      ensures r == Err(InvalidSteps) <==> !Storable(steps)
      ensures r == Err(MissingCapability) <==> Storable(steps) && !capable
      ensures r.Ok? ==> AllStoredAs(steps, r.value.steps) && WellFormed(r.value.steps)
      ensures r.Ok? && WellFormed(steps) ==> r.value.steps == steps
      ensures r.Ok? ==> IsSaved(old(index), name, variables, now, r.value, index)
    {
      StorableIff(steps);
      hide WellFormed, AllStoredAs, Storable, Normalized, CycleReachable, Acyclic, Lasso, GraphOf, UniqueIds;
      var normalized := Normalized(steps);
      var ok := ValidateSteps(normalized);
      if !ok {
        return Err(InvalidSteps);
      }
      if !capable {
        return Err(MissingCapability);
      }
      var entries := index;
      var k := FirstNamed(entries, name);
      var entry: Sequence;
      if k < |entries| {
        entry := entries[k].(steps := normalized, variables := variables);
        entries := entries[k := entry];
      } else {
        var id := UniqueId(Slugify(name), Ids(entries));
        entry := Sequence(id, name, "", now, normalized, variables);
        entries := entries + [entry];
      }
      PutIsLocal(index, k, entry);
      PutChecked(index, k, entry);
      var found := CheckForCycles(entries, entry.id);
      if found.Some? {
        return Err(CycleFound(found.value));
      }
      index := entries;
      return Ok(entry);
    }

    /** `upsert_envelope`: writes a sequence under its own id; no preset check. The flag of the
        result is true when the sequence was created. */
    method Upsert(env: Sequence, now: string) returns (r: Result<bool, StoreError>)
      modifies this
      ensures old(Acyclic(GraphOf(index))) ==> Acyclic(GraphOf(index))
      ensures old(UniqueIds(index)) ==> UniqueIds(index)
      ensures var next := Put(old(index), FirstWithId(old(index), env.id), UpsertedEntry(old(index), env, now));
        && index == (if r.Ok? then next else old(index))
        && (r.Ok? ==> (r.value <==> env.id !in Ids(old(index))))
        && (r.Ok? <==> WellFormed(Normalized(env.steps)) && !CycleReachable(GraphOf(next), env.id))
        && (old(Acyclic(GraphOf(index))) ==> (r.Ok? <==> WellFormed(Normalized(env.steps)) && Acyclic(GraphOf(next))))
        && (r.Err? && r.error.CycleFound? ==> Lasso(GraphOf(next), env.id, r.error.path))
      ensures r == Err(InvalidSteps) <==> !Storable(env.steps)
      ensures r.Ok? ==> exists entry: Sequence :: AllStoredAs(env.steps, entry.steps) && WellFormed(entry.steps)
                                        && IsUpserted(old(index), env, now, entry, index)
                                        && (WellFormed(env.steps) ==> entry.steps == env.steps)
    {
      StorableIff(env.steps);
      hide WellFormed, AllStoredAs, Storable, Normalized, CycleReachable, Acyclic, Lasso, GraphOf, UniqueIds;
      var normalized := Normalized(env.steps);
      var ok := ValidateSteps(normalized);
      if !ok {
        return Err(InvalidSteps);
      }
      var entries := index;
      var k := FirstWithId(entries, env.id);
      var entry := env.(steps := normalized);
      var created := k == |entries|;
      if created {
        entry := entry.(createdAt := if env.createdAt == "" then now else env.createdAt);
        entries := entries + [entry];
      } else {
        entry := entry.(createdAt := if entries[k].createdAt == "" then now else entries[k].createdAt);
        entries := entries[k := entry];
      }
      assert env.id in Ids(index) <==> !created;
      PutIsLocal(index, k, entry);
      PutChecked(index, k, entry);
      var found := CheckForCycles(entries, entry.id);
      if found.Some? {
        return Err(CycleFound(found.value));
      }
      index := entries;
      return Ok(created);
    }

    /** `delete_sequence` */
    method Delete(id: Id) returns (deleted: bool)
      modifies this
      ensures deleted <==> id in Ids(old(index))
      ensures index == Without(old(index), id)
      ensures old(Acyclic(GraphOf(index))) ==> Acyclic(GraphOf(index))
      ensures old(UniqueIds(index)) ==> UniqueIds(index)
    {
      var kept := Without(index, id);
      WithoutKeeps(index, id);
      if |kept| == |index| {
        return false;
      }
      ByIdFilter(index, id);
      if Acyclic(GraphOf(index)) {
        LocalCheckSuffices(GraphOf(index), GraphOf(kept), {});
      }
      index := kept;
      return true;
    }

    /** `duplicate_sequence`: appends a copy of the steps under a fresh name and id, without a
        cycle check. With unique ids the store stays acyclic exactly when nothing the original
        reaches already refers to the id the copy gets. */
    method Duplicate(id: Id, now: string) returns (r: Option<Sequence>)
      modifies this
      ensures old(UniqueIds(index)) ==> UniqueIds(index)
      ensures r.None? <==> id !in Ids(old(index))
      ensures r.None? ==> index == old(index)
      ensures r.Some? ==>
        var source := old(index)[FirstWithId(old(index), id)];
        var name := FreeVariant(source.name + " (copy)", " (", ")", Names(old(index)));
        var copy := Sequence(FreshId(Slugify(name), Ids(old(index))), name, source.description, now,
                             source.steps, source.variables);
        && r.value == copy && index == old(index) + [copy]
        && (old(Acyclic(GraphOf(index)) && UniqueIds(index)) ==>
            (Acyclic(GraphOf(index)) <==> !RefersEventually(GraphOf(old(index)), id, copy.id)))
      ensures r.Some? ==>
        && IsFreeName(old(index), old(index)[FirstWithId(old(index), id)].name + " (copy)", r.value.name)
        && forall i :: 0 <= i < |old(index)| ==> old(index)[i].id != r.value.id
    {
      var k := FirstWithId(index, id);
      if k == |index| {
        return None;
      }
      var source := index[k];
      assert source.id in Ids(index);
      var name := UniqueName(source.name + " (copy)", Names(index));
      var copyId := UniqueId(Slugify(name), Ids(index));
      var copy := Sequence(copyId, name, source.description, now, source.steps, source.variables);
      PutIsLocal(index, |index|, copy);
      if Acyclic(GraphOf(index)) && UniqueIds(index) {
        CopyIsChecked(index, k, copy);
      }
      assert IsFreeName(index, source.name + " (copy)", name);
      index := index + [copy];
      return Some(copy);
    }

    /** `_apply_chain_sequences`: the third writer. The check runs on the merged entries, from
        every imported id. A merge always has unique ids; a replacement has them exactly when
        the profile does. */
    method Import(incoming: seq<Sequence>, mode: Mode) returns (r: Result<nat, StoreError>)
      modifies this
      ensures old(Acyclic(GraphOf(index))) ==> Acyclic(GraphOf(index))
      ensures var final := Imported(old(index), incoming, mode);
        && index == (if r.Ok? then final else old(index))
        && (r.Ok? <==> NoCycleFrom(final, incoming))
        && (old(Acyclic(GraphOf(index))) || mode == Replace ==> (r.Ok? <==> Acyclic(GraphOf(final))))
        && (r.Ok? ==> r.value == |final|)
      ensures r.Ok? && mode == Replace ==> index == incoming
      ensures r.Ok? && mode == Merge ==> IsMerge(old(index), incoming, index)
      ensures r.Ok? ==> (UniqueIds(index) <==> mode == Merge || UniqueIds(incoming))
    {
      var final := incoming;
      if mode == Merge {
        final := UpsertById(index, incoming);
        MergedIsById(index, incoming);
        MergedIsMerge(index, incoming);
      }
      ImportChecked(index, incoming, mode);
      for i := 0 to |incoming|
        invariant index == old(index)
        invariant forall j :: 0 <= j < i ==> !CycleReachable(GraphOf(final), incoming[j].id)
      {
        var found := CheckForCycles(final, incoming[i].id);
        if found.Some? {
          return Err(CycleFound(found.value));
        }
      }
      index := final;
      return Ok(|final|);
    }
  }

  /** `name` is `base` or its numbered variant, the first that no entry is called. */
  ghost predicate IsFreeName(entries: seq<Sequence>, base: string, name: string) {
    exists taken :: IsFreeVariant(base, " (", ")", taken, name)
                    && forall n :: n in taken <==> exists i :: 0 <= i < |entries| && entries[i].name == n
  }

  function Names(entries: seq<Sequence>): set<string> {
    set i | 0 <= i < |entries| :: entries[i].name
  }

  /** `_unique_name` */
  method UniqueName(base: string, existing: set<string>) returns (name: string)
    ensures name == FreeVariant(base, " (", ")", existing) && IsFreeVariant(base, " (", ")", existing, name)
  {
    FreeVariantIs(base, " (", ")", existing);
    if base !in existing {
      return base;
    }
    var n := 2;
    while Numbered(base, " (", ")", n) in existing
      invariant n >= 2 && TakenBelow(base, " (", ")", existing, n)
      invariant n - 2 <= |existing|
      decreases |existing| + 2 - n
    {
      n := n + 1;
      TriesBounded(base, " (", ")", existing, n);
    }
    LeastFreeStep(base, " (", ")", existing, n);
    return Numbered(base, " (", ")", n);
  }

  lemma {:induction false} OneMoreEntry(front: seq<Sequence>, e: Sequence)
    ensures KeyOrder(front + [e]) == (if e.id in KeyOrder(front) then KeyOrder(front) else KeyOrder(front) + [e.id])
    ensures ById(front + [e]) == ById(front)[e.id := e]
  {
    assert (front + [e])[..|front|] == front;
  }

  /** Entries written to the dict one by one; `done` is what was written before. */
  method WriteAll(keys0: seq<Id>, byId0: map<Id, Sequence>, batch: seq<Sequence>, ghost done: seq<Sequence>)
    returns (keys: seq<Id>, byId: map<Id, Sequence>)
    requires keys0 == KeyOrder(done) && byId0 == ById(done)
    ensures keys == KeyOrder(done + batch) && byId == ById(done + batch)
  {
    keys, byId := keys0, byId0;
    assert done + batch[..0] == done;
    hide KeyOrder, ById;
    for i := 0 to |batch|
      invariant keys == KeyOrder(done + batch[..i]) && byId == ById(done + batch[..i])
    {
      var e := batch[i];
      OneMoreEntry(done + batch[..i], e);
      assert done + batch[..i + 1] == (done + batch[..i]) + [e];
      if e.id !in keys {
        keys := keys + [e.id];
      }
      byId := byId[e.id := e];
    }
    assert batch[..|batch|] == batch;
  }

  /** `_upsert_by_id`: a dict keyed by id, with its keys in insertion order. */
  method UpsertById(existing: seq<Sequence>, incoming: seq<Sequence>) returns (merged: seq<Sequence>)
    ensures merged == Merged(existing, incoming)
  {
    var keys, byId := WriteAll([], map[], existing, []);
    assert [] + existing == existing;
    keys, byId := WriteAll(keys, byId, incoming, existing);
    KeyOrderKeys(existing + incoming);
    hide KeyOrder, ById;
    merged := seq(|keys|, i requires 0 <= i < |keys| => assert keys[i] in keys; byId[keys[i]]);
  }

  lemma {:induction false} IdsSnoc(front: seq<Sequence>, last: Sequence)
    ensures Ids(front + [last]) == Ids(front) + {last.id}
    ensures UniqueIds(front + [last]) <==> UniqueIds(front) && last.id !in Ids(front)
    ensures Ids([]) == {} && UniqueIds([])
  {
    var all := front + [last];
    assert forall i :: 0 <= i < |front| ==> all[i] == front[i];
    assert all[|front|] == last;
  }

  lemma {:induction false} WithoutKeeps(entries: seq<Sequence>, gone: Id)
    ensures |Without(entries, gone)| <= |entries|
    ensures |Without(entries, gone)| == |entries| <==> gone !in Ids(entries)
    ensures gone !in Ids(entries) ==> Without(entries, gone) == entries
    ensures Ids(Without(entries, gone)) <= Ids(entries) - {gone}
    ensures UniqueIds(entries) ==> UniqueIds(Without(entries, gone))
  {
    if entries != [] {
      hide UniqueIds, Ids;
      var front, last := entries[..|entries| - 1], entries[|entries| - 1];
      WithoutKeeps(front, gone);
      assert entries == front + [last];
      IdsSnoc(front, last);
      IdsSnoc(Without(front, gone), last);
    }
  }
}
