/** The documents of the chain engine: stored sequences with their raw steps, and the typed
    steps a run works on. */
module ChainModels {
  import opened Prelude
  import opened Digraph

  datatype StepKind =
    | Llm | Voice | WriteContext | SequenceCall | ImagePrompt | SaveWildcard | CreateTicket | Goto
    | UnknownKind(name: string)

  /** One alternative of a step. An absent `sequence_id` is the empty string, which the
      source treats the same way; `body` stands for the prompt fields no proof looks into. */
  datatype Alternative = Alternative(
    weight: int,
    sequenceId: Id,
    contextIds: seq<Id>,
    targetStep: Option<int>,
    fallThrough: bool,
    body: string)

  /** A step as stored. `number` is 0 when it is missing or no positive integer; `shorthand`
      holds the alternative fields written on the step itself (the older format). */
  datatype RawStep = RawStep(
    number: int,
    id: string,
    name: string,
    kind: StepKind,
    visitCap: int,
    alternatives: seq<Alternative>,
    shorthand: Alternative)

  datatype Sequence = Sequence(
    id: Id,
    name: string,
    description: string,
    createdAt: string,
    steps: seq<RawStep>,
    variables: seq<string>)

  /** A step of a run, as the request model builds it: always at least one alternative. */
  datatype ChainStep = ChainStep(
    number: int,
    id: string,
    name: string,
    kind: StepKind,
    visitCap: int,
    alternatives: seq<Alternative>)

  const NO_FIELDS := Alternative(1, "", [], None, false, "")

  // ---- references between sequences, as the cycle check reads them ----

  function AlternativeDeps(alts: seq<Alternative>): seq<Id> {
    if alts == [] then []
    else
      var last := alts[|alts| - 1];
      AlternativeDeps(alts[..|alts| - 1]) + (if last.sequenceId != "" then [last.sequenceId] else [])
  }

  function StepDeps(step: RawStep): seq<Id> {
    if step.kind != SequenceCall then []
    else AlternativeDeps(step.alternatives)
         + (if step.shorthand.sequenceId != "" then [step.shorthand.sequenceId] else [])
  }

  function Deps(steps: seq<RawStep>): seq<Id> {
    if steps == [] then []
    else Deps(steps[..|steps| - 1]) + StepDeps(steps[|steps| - 1])
  }

  /** `id` is the target of a call in `steps`: through an alternative or the shorthand field. */
  ghost predicate Calls(steps: seq<RawStep>, id: Id) {
    exists i :: 0 <= i < |steps| && CalledBy(steps[i], id)
  }

  ghost predicate CalledBy(step: RawStep, id: Id) {
    && step.kind == SequenceCall
    && id != ""
    && (step.shorthand.sequenceId == id || HasSequenceId(step.alternatives, id))
  }

  ghost predicate HasSequenceId(alts: seq<Alternative>, id: Id) {
    exists k :: 0 <= k < |alts| && alts[k].sequenceId == id
  }

  lemma {:induction false} AlternativeDepsMember(alts: seq<Alternative>, id: Id)
    ensures id in AlternativeDeps(alts) <==> id != "" && HasSequenceId(alts, id)
  {
    if alts != [] {
      var front, last := alts[..|alts| - 1], alts[|alts| - 1];
      AlternativeDepsMember(front, id);
      assert HasSequenceId(alts, id) <==> HasSequenceId(front, id) || last.sequenceId == id by {
        assert forall k :: 0 <= k < |front| ==> front[k] == alts[k];
      }
    }
  }

  lemma {:induction false} CallsSnoc(front: seq<RawStep>, last: RawStep, id: Id)
    ensures Calls(front + [last], id) <==> Calls(front, id) || CalledBy(last, id)
  {
    var all := front + [last];
    assert all[|front|] == last && forall k :: 0 <= k < |front| ==> front[k] == all[k];
  }

  lemma {:induction false} StepDepsMember(step: RawStep, id: Id)
    ensures id in StepDeps(step) <==> CalledBy(step, id)
  {
    AlternativeDepsMember(step.alternatives, id);
  }

  /** What the cycle check follows is exactly the calls of a sequence. */
  lemma {:induction false} DepsAreCalls(steps: seq<RawStep>, id: Id)
    ensures id in Deps(steps) <==> Calls(steps, id)
  {
    if steps != [] {
      hide StepDeps, CalledBy, Calls;
      var front, last := steps[..|steps| - 1], steps[|steps| - 1];
      DepsAreCalls(front, id);
      StepDepsMember(last, id);
      CallsSnoc(front, last, id);
      assert steps == front + [last];
    }
  }

  lemma {:induction false} DepsNext(steps: seq<RawStep>, i: nat)
    requires i < |steps|
    ensures Deps(steps[..i + 1]) == Deps(steps[..i]) + StepDeps(steps[i])
  {
    assert steps[..i + 1][..i] == steps[..i];
  }

  lemma {:induction false} AlternativeDepsNext(alts: seq<Alternative>, k: nat)
    requires k < |alts|
    ensures AlternativeDeps(alts[..k + 1])
         == AlternativeDeps(alts[..k]) + (if alts[k].sequenceId != "" then [alts[k].sequenceId] else [])
  {
    assert alts[..k + 1][..k] == alts[..k];
  }

  /** The inner loop of `direct_deps`. */
  method AlternativeTargets(alts: seq<Alternative>) returns (ids: seq<Id>)
    ensures ids == AlternativeDeps(alts)
  {
    ids := [];
    for k := 0 to |alts|
      invariant ids == AlternativeDeps(alts[..k])
    {
      AlternativeDepsNext(alts, k);
      if alts[k].sequenceId != "" {
        ids := ids + [alts[k].sequenceId];
      }
    }
    assert alts[..|alts|] == alts;
  }

  /** `direct_deps` */
  method DirectDeps(steps: seq<RawStep>) returns (deps: seq<Id>)
    ensures deps == Deps(steps)
  {
    deps := [];
    for i := 0 to |steps|
      invariant deps == Deps(steps[..i])
    {
      hide Deps, AlternativeDeps;
      DepsNext(steps, i);
      if steps[i].kind == SequenceCall {
        var ids := AlternativeTargets(steps[i].alternatives);
        if steps[i].shorthand.sequenceId != "" {
          ids := ids + [steps[i].shorthand.sequenceId];
        }
        assert ids == StepDeps(steps[i]);
        deps := deps + ids;
      }
    }
    assert steps[..|steps|] == steps;
  }

  // ---- the store as a map and as a graph ----

  /** `{s["id"]: s for s in entries}`: the last entry with an id wins. */
  function ById(entries: seq<Sequence>): map<Id, Sequence> {
    if entries == [] then map[]
    else ById(entries[..|entries| - 1])[entries[|entries| - 1].id := entries[|entries| - 1]]
  }

  function StoreGraph(m: map<Id, Sequence>): Graph {
    map id | id in m :: Deps(m[id].steps)
  }

  function GraphOf(entries: seq<Sequence>): Graph {
    StoreGraph(ById(entries))
  }

  ghost predicate UniqueIds(entries: seq<Sequence>) {
    forall i, j :: 0 <= i < j < |entries| ==> entries[i].id != entries[j].id
  }

  function Ids(entries: seq<Sequence>): set<Id> {
    set i | 0 <= i < |entries| :: entries[i].id
  }

  lemma {:induction false} ByIdKeys(entries: seq<Sequence>)
    ensures ById(entries).Keys == Ids(entries)
    ensures forall id :: id in ById(entries) ==> ById(entries)[id] in entries && ById(entries)[id].id == id
  {
    if entries != [] {
      var front := entries[..|entries| - 1];
      ByIdKeys(front);
      assert entries == front + [entries[|entries| - 1]];
      assert forall i :: 0 <= i < |front| ==> entries[i] == front[i];
      assert Ids(entries) == Ids(front) + {entries[|entries| - 1].id};
    }
  }

  lemma {:induction false} ByIdUnique(entries: seq<Sequence>, k: nat)
    requires UniqueIds(entries) && k < |entries|
    ensures entries[k].id in ById(entries) && ById(entries)[entries[k].id] == entries[k]
  {
    if k < |entries| - 1 {
      ByIdUnique(entries[..|entries| - 1], k);
    }
  }

  /** A list that agrees with another one except on entries carrying `id` yields the same map
      elsewhere. */
  lemma {:induction false} ByIdUpdate(entries: seq<Sequence>, k: nat, s: Sequence)
    requires k < |entries| && s.id == entries[k].id
    ensures forall id :: id != s.id ==>
      (id in ById(entries[k := s]) <==> id in ById(entries)) &&
      (id in ById(entries) ==> ById(entries[k := s])[id] == ById(entries)[id])
  {
    var last := |entries| - 1;
    var changed := entries[k := s];
    if k < last {
      ByIdUpdate(entries[..last], k, s);
      assert changed[..last] == entries[..last][k := s];
    } else {
      assert changed[..last] == entries[..last];
    }
  }

  lemma {:induction false} ByIdFilter(entries: seq<Sequence>, gone: Id)
    ensures forall id :: id in ById(Without(entries, gone)) <==> id in ById(entries) && id != gone
    ensures forall id :: id in ById(entries) && id != gone ==> ById(Without(entries, gone))[id] == ById(entries)[id]
  {
    if entries != [] {
      var front := entries[..|entries| - 1];
      ByIdFilter(front, gone);
      var kept := Without(entries, gone);
      if entries[|entries| - 1].id != gone {
        assert kept[..|kept| - 1] == Without(front, gone);
      } else {
        assert kept == Without(front, gone);
      }
    }
  }

  /** The entries whose id is not `gone`, in order. */
  function Without(entries: seq<Sequence>, gone: Id): seq<Sequence> {
    if entries == [] then []
    else
      var last := entries[|entries| - 1];
      Without(entries[..|entries| - 1], gone) + (if last.id != gone then [last] else [])
  }

  /** Every other entry stays, in its order and as often as it was there. */
  lemma {:induction false} WithoutSplits(a: seq<Sequence>, b: seq<Sequence>, gone: Id)
    ensures Without(a + b, gone) == Without(a, gone) + Without(b, gone)
  {
    if b == [] {
      assert a + b == a;
    } else {
      var front, last := b[..|b| - 1], b[|b| - 1];
      assert (a + b)[..|a + b| - 1] == a + front;
      WithoutSplits(a, front, gone);
      var one := if last.id != gone then [last] else [];
      assert Without(a + b, gone) == Without(a + front, gone) + one;
      assert Without(b, gone) == Without(front, gone) + one;
      hide Without;
      assert (Without(a, gone) + Without(front, gone)) + one == Without(a, gone) + (Without(front, gone) + one);
    }
  }

  lemma {:induction false} WithoutOne(s: Sequence, gone: Id)
    ensures Without([s], gone) == if s.id == gone then [] else [s]
  {
    assert [s][..0] == [];
  }
}
