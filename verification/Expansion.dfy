/** Inlining of sequence calls: `_expand_steps`. */
module Expansion {
  import opened Prelude
  import opened Digraph
  import opened ChainModels

  datatype ExpandError = DepthExceeded | NoSequenceId(step: string) | UnknownSequence(id: Id) | InvalidStep

  type Expanded = Result<seq<ChainStep>, ExpandError>

  const MAX_DEPTH := 20

  // ---- building typed steps from stored ones ----

  /** A stored step the step model accepts. */
  predicate Loadable(raw: RawStep) {
    && !raw.kind.UnknownKind?
    && raw.visitCap >= 1
    && (forall k :: 0 <= k < |raw.alternatives| ==> raw.alternatives[k].weight >= 1)
    && (raw.alternatives == [] ==> raw.shorthand.weight >= 1)
  }

  function Load(raw: RawStep): ChainStep {
    ChainStep(raw.number, raw.id, raw.name, raw.kind, raw.visitCap,
              if raw.alternatives != [] then raw.alternatives else [raw.shorthand])
  }

  function LoadAll(raws: seq<RawStep>): (steps: seq<ChainStep>)
    ensures |steps| == |raws|
  {
    seq(|raws|, i requires 0 <= i < |raws| => Load(raws[i]))
  }

  /** The sequence a calling step inlines: only its first alternative counts. */
  function Target(step: ChainStep): Id {
    if step.alternatives == [] then "" else step.alternatives[0].sequenceId
  }

  // ---- one step moved into the scope of its caller ----

  function Titled(prefix: string, name: string): string {
    if prefix == "" then name else prefix + " > " + name
  }

  function MoveGoto(alt: Alternative, offset: int): Alternative {
    if alt.targetStep.Some? then alt.(targetStep := Some(offset + alt.targetStep.value)) else alt
  }

  function MoveGotos(alts: seq<Alternative>, offset: int): (moved: seq<Alternative>)
    ensures |moved| == |alts|
  {
    seq(|alts|, i requires 0 <= i < |alts| => MoveGoto(alts[i], offset))
  }

  function Relocated(step: ChainStep, offset: int, prefix: string): ChainStep {
    var named := step.(name := Titled(prefix, step.name));
    if offset == 0 then named
    else
      named.(number := offset + step.number,
             alternatives := if step.kind == Goto then MoveGotos(step.alternatives, offset) else step.alternatives)
  }

  // ---- the recursion ----

  function CallNumber(step: ChainStep, before: nat): int {
    if step.number > 0 then step.number else before + 1
  }

  ghost function Budget(depth: nat): nat {
    if depth > MAX_DEPTH then 0 else MAX_DEPTH + 1 - depth
  }

  /** What the expansion must return for `steps` at a given depth, as a function. */
  function Expand(steps: seq<ChainStep>, store: map<Id, Sequence>, offset: int, prefix: string, depth: nat): Expanded
    decreases Budget(depth), |steps|
  {
    if depth > MAX_DEPTH then Err(DepthExceeded)
    else if steps == [] then Ok([])
    else
      var front := Expand(steps[..|steps| - 1], store, offset, prefix, depth);
      if front.Err? then front
      else
        var one := ExpandOne(steps[|steps| - 1], store, offset, prefix, |front.value|, depth);
        if one.Err? then one else Ok(front.value + one.value)
  }

  /** What one step contributes after `before` flattened steps of the same list. */
  function ExpandOne(step: ChainStep, store: map<Id, Sequence>, offset: int, prefix: string, before: nat, depth: nat): Expanded
    requires depth <= MAX_DEPTH
    decreases Budget(depth), 0
  {
    if step.kind != SequenceCall then Ok([Relocated(step, offset, prefix)])
    else if Target(step) == "" then Err(NoSequenceId(step.name))
    else if Target(step) !in store then Err(UnknownSequence(Target(step)))
    else if exists i :: 0 <= i < |store[Target(step)].steps| && !Loadable(store[Target(step)].steps[i]) then
      Err(InvalidStep)
    else
      Expand(LoadAll(store[Target(step)].steps), store, CallNumber(step, before) * 1000,
             Titled(prefix, step.name), depth + 1)
  }

  /** The copy of a step that is no call, renamed and renumbered field by field. */
  method Relocate(step: ChainStep, offset: int, prefix: string) returns (copy: ChainStep)
    ensures copy == Relocated(step, offset, prefix)
  {
    copy := step;
    if prefix != "" {
      copy := copy.(name := prefix + " > " + copy.name);
    }
    if offset != 0 {
      copy := copy.(number := offset + copy.number);
      if copy.kind == Goto {
        var alts := copy.alternatives;
        for k := 0 to |alts|
          invariant |alts| == |step.alternatives|
          invariant forall j :: 0 <= j < k ==> alts[j] == MoveGoto(step.alternatives[j], offset)
          invariant forall j :: k <= j < |alts| ==> alts[j] == step.alternatives[j]
        {
          if alts[k].targetStep.Some? {
            alts := alts[k := alts[k].(targetStep := Some(offset + alts[k].targetStep.value))];
          }
        }
        assert alts == MoveGotos(step.alternatives, offset);
        copy := copy.(alternatives := alts);
      }
    }
  }

  method ExpandSteps(steps: seq<ChainStep>, store: map<Id, Sequence>, offset: int, prefix: string, depth: nat)
    returns (r: Expanded)
    ensures r == Expand(steps, store, offset, prefix, depth)
    decreases Budget(depth)
  {
    hide Relocated, Loadable;
    if depth > MAX_DEPTH {
      return Err(DepthExceeded);
    }
    var result: seq<ChainStep> := [];
    for i := 0 to |steps|
      invariant Expand(steps[..i], store, offset, prefix, depth) == Ok(result)
    {
      hide Expand;
      var step := steps[i];
      ExpandNext(steps, i, store, offset, prefix, depth);
      if step.kind != SequenceCall {
        var copy := Relocate(step, offset, prefix);
        result := result + [copy];
      } else {
        var id := Target(step);
        if id == "" {
          return Err(NoSequenceId(step.name));
        }
        if id !in store {
          return Err(UnknownSequence(id));
        }
        if exists k :: 0 <= k < |store[id].steps| && !Loadable(store[id].steps[k]) {
          return Err(InvalidStep);
        }
        var title := if prefix != "" then prefix + " > " + step.name else step.name;
        var outer := if step.number > 0 then step.number else |result| + 1;
        var inner := ExpandSteps(LoadAll(store[id].steps), store, outer * 1000, title, depth + 1);
        if inner.Err? {
          return inner;
        }
        result := result + inner.value;
      }
    }
    assert steps[..|steps|] == steps;
    return Ok(result);
  }

  /** A failing position decides the outcome of every longer list. */
  lemma {:induction false} ErrStays(steps: seq<ChainStep>, i: nat, store: map<Id, Sequence>, offset: int, prefix: string, depth: nat)
    requires i <= |steps| && Expand(steps[..i], store, offset, prefix, depth).Err?
    ensures Expand(steps, store, offset, prefix, depth) == Expand(steps[..i], store, offset, prefix, depth)
    decreases |steps| - i
  {
    if i < |steps| {
      assert steps[..i + 1][..i] == steps[..i];
      ErrStays(steps, i + 1, store, offset, prefix, depth);
    } else {
      assert steps[..i] == steps;
    }
  }

  lemma {:induction false} ExpandNext(steps: seq<ChainStep>, i: nat, store: map<Id, Sequence>, offset: int, prefix: string, depth: nat)
    requires i < |steps| && depth <= MAX_DEPTH && Expand(steps[..i], store, offset, prefix, depth).Ok?
    ensures var front := Expand(steps[..i], store, offset, prefix, depth);
      var one := ExpandOne(steps[i], store, offset, prefix, |front.value|, depth);
      if one.Err? then Expand(steps, store, offset, prefix, depth) == one
      else Expand(steps[..i + 1], store, offset, prefix, depth) == Ok(front.value + one.value)
  {
    assert steps[..i + 1][..i] == steps[..i];
    if Expand(steps[..i + 1], store, offset, prefix, depth).Err? {
      ErrStays(steps, i + 1, store, offset, prefix, depth);
    }
  }

  /** A stored step the step model refuses: of an unknown kind, with a visit cap or a weight
      below one. */
  ghost predicate Refused(raw: RawStep) {
    || raw.kind.UnknownKind? || raw.visitCap < 1
    || (exists k :: 0 <= k < |raw.alternatives| && raw.alternatives[k].weight < 1)
    || (raw.alternatives == [] && raw.shorthand.weight < 1)
  }

  /** The first call that cannot be followed decides the error, whatever comes behind it: a call
      without an id, one to no stored sequence, or one to a sequence with a refused step. */
  lemma {:induction false} FirstBadCall(front: seq<ChainStep>, call: ChainStep, rest: seq<ChainStep>, store: map<Id, Sequence>,
                                        offset: int, prefix: string, depth: nat)
    requires depth <= MAX_DEPTH && Expand(front, store, offset, prefix, depth).Ok? && call.kind == SequenceCall
    ensures var r := Expand(front + [call] + rest, store, offset, prefix, depth);
      var id := if call.alternatives == [] then "" else call.alternatives[0].sequenceId;
      && (id == "" ==> r == Err(NoSequenceId(call.name)))
      && (id != "" && id !in store ==> r == Err(UnknownSequence(id)))
      && (id != "" && id in store && (exists i :: 0 <= i < |store[id].steps| && Refused(store[id].steps[i])) ==>
          r == Err(InvalidStep))
  {
    var steps, i := front + [call] + rest, |front|;
    assert steps[..i] == front && steps[i] == call;
    ExpandNext(steps, i, store, offset, prefix, depth);
    hide Expand;
    if Target(call) in store {
      LoadableIff(store[Target(call)].steps);
    }
  }

  /** A call that can be followed is replaced by the expansion of what it names, under its own
      number or, without one, the number of steps flattened so far plus one. */
  lemma {:induction false} CallIsInlined(front: seq<ChainStep>, call: ChainStep, store: map<Id, Sequence>,
                                         offset: int, prefix: string, depth: nat)
    requires depth <= MAX_DEPTH && Expand(front, store, offset, prefix, depth).Ok? && CallsStored(call, store)
    requires forall i :: 0 <= i < |store[Target(call)].steps| ==> !Refused(store[Target(call)].steps[i])
    ensures var done := Expand(front, store, offset, prefix, depth).value;
      var n := if call.number > 0 then call.number else |done| + 1;
      var title := if prefix == "" then call.name else prefix + " > " + call.name;
      var inner := Expand(LoadAll(store[Target(call)].steps), store, 1000 * n, title, depth + 1);
      Expand(front + [call], store, offset, prefix, depth) == if inner.Ok? then Ok(done + inner.value) else inner
  {
    var steps := front + [call];
    assert steps[..|front|] == front && steps[..|front| + 1] == steps;
    ExpandNext(steps, |front|, store, offset, prefix, depth);
    LoadableIff(store[Target(call)].steps);
    hide Expand, Loadable, Refused;
  }

  lemma {:induction false} LoadableIff(raws: seq<RawStep>)
    ensures (exists i :: 0 <= i < |raws| && !Loadable(raws[i])) <==> exists i :: 0 <= i < |raws| && Refused(raws[i])
  {
    forall i | 0 <= i < |raws|
      ensures Loadable(raws[i]) <==> !Refused(raws[i])
    {
    }
    hide Loadable, Refused;
  }

  // ---- depth: exactly when the guard fires ----

  /** The step calls a stored sequence through its first alternative. */
  predicate CallsStored(step: ChainStep, store: map<Id, Sequence>) {
    step.kind == SequenceCall && Target(step) != "" && Target(step) in store
  }

  /** A chain of `n` calls, each in the sequence called by the one before. */
  ghost predicate CallsDown(steps: seq<ChainStep>, store: map<Id, Sequence>, n: nat)
    decreases n, 1
  {
    n == 0 || exists k :: 0 <= k < |steps| && CallDown(steps[k], store, n - 1)
  }

  /** The step calls a sequence with a chain of `n` calls. */
  ghost predicate CallDown(step: ChainStep, store: map<Id, Sequence>, n: nat)
    decreases n + 1, 0
  {
    CallsStored(step, store) && CallsDown(LoadAll(store[Target(step)].steps), store, n)
  }

  /** Every call met on the first `n` levels names a stored sequence whose steps can be built. */
  ghost predicate Resolves(steps: seq<ChainStep>, store: map<Id, Sequence>, n: nat)
    decreases n, 1
  {
    n == 0 || forall k :: 0 <= k < |steps| ==> CallResolves(steps[k], store, n - 1)
  }

  ghost predicate CallResolves(step: ChainStep, store: map<Id, Sequence>, n: nat)
    decreases n + 1, 0
  {
    step.kind == SequenceCall ==>
      && CallsStored(step, store)
      && (forall i :: 0 <= i < |store[Target(step)].steps| ==> Loadable(store[Target(step)].steps[i]))
      && Resolves(LoadAll(store[Target(step)].steps), store, n)
  }

  lemma {:induction false} LevelSnoc(steps: seq<ChainStep>, store: map<Id, Sequence>, n: nat)
    requires steps != []
    ensures var (front, last) := (steps[..|steps| - 1], steps[|steps| - 1]);
      && (CallsDown(steps, store, n + 1) <==> CallsDown(front, store, n + 1) || CallDown(last, store, n))
      && (Resolves(steps, store, n + 1) <==> Resolves(front, store, n + 1) && CallResolves(last, store, n))
  {
    hide CallDown, CallResolves;
    var front := steps[..|steps| - 1];
    assert forall k :: 0 <= k < |front| ==> front[k] == steps[k];
  }

  /** The outcome of an expansion: it succeeds if and only if every call met resolves and no
      chain of calls is deeper than the guard allows. When all calls resolve, the guard fires
      if and only if there is such a chain; without that it still fires only on one. */
  lemma {:induction false} DepthGuardIff(steps: seq<ChainStep>, store: map<Id, Sequence>, offset: int, prefix: string, depth: nat)
    requires depth <= MAX_DEPTH + 1
    ensures var (r, n) := (Expand(steps, store, offset, prefix, depth), MAX_DEPTH + 1 - depth);
      && (r == Err(DepthExceeded) ==> CallsDown(steps, store, n))
      && (Resolves(steps, store, n) ==> (r == Err(DepthExceeded) <==> CallsDown(steps, store, n)))
      && (r.Ok? <==> Resolves(steps, store, n) && !CallsDown(steps, store, n))
    decreases Budget(depth), |steps|
  {
    hide CallDown, CallResolves, ExpandOne;
    if depth <= MAX_DEPTH && steps != [] {
      var n := |steps| - 1;
      var front := Expand(steps[..n], store, offset, prefix, depth);
      DepthGuardIff(steps[..n], store, offset, prefix, depth);
      LevelSnoc(steps, store, MAX_DEPTH - depth);
      if front.Ok? {
        LastCallIff(steps[n], store, offset, prefix, |front.value|, depth);
      }
      hide CallsDown, Resolves;
    }
  }

  lemma {:induction false} LastCallIff(step: ChainStep, store: map<Id, Sequence>, offset: int, prefix: string, before: nat, depth: nat)
    requires depth <= MAX_DEPTH
    ensures var (r, n) := (ExpandOne(step, store, offset, prefix, before, depth), MAX_DEPTH - depth);
      && (r == Err(DepthExceeded) ==> CallDown(step, store, n))
      && (CallResolves(step, store, n) ==> (r == Err(DepthExceeded) <==> CallDown(step, store, n)))
      && (r.Ok? <==> CallResolves(step, store, n) && !CallDown(step, store, n))
    decreases Budget(depth), 0
  {
    hide CallsDown, Resolves, LoadAll, Relocated, Expand;
    if CallsStored(step, store) {
      DepthGuardIff(LoadAll(store[Target(step)].steps), store, CallNumber(step, before) * 1000,
                    Titled(prefix, step.name), depth + 1);
    }
  }

  /** Every call the expansion follows out of a stored sequence is a reference the cycle check
      saw. */
  lemma {:induction false} FollowedIsChecked(raws: seq<RawStep>, k: nat)
    requires k < |raws|
    requires LoadAll(raws)[k].kind == SequenceCall && Target(LoadAll(raws)[k]) != ""
    ensures Target(LoadAll(raws)[k]) in Deps(raws)
  {
    var id := Target(LoadAll(raws)[k]);
    assert CalledBy(raws[k], id);
    DepsAreCalls(raws, id);
  }

  /** All calls in `steps` are references of the last node of `p`. */
  ghost predicate CallsFrom(store: map<Id, Sequence>, p: seq<Id>, steps: seq<ChainStep>) {
    && Walk(StoreGraph(store), p)
    && (|p| > 0 ==> forall k :: 0 <= k < |steps| && steps[k].kind == SequenceCall && Target(steps[k]) != "" ==>
        Target(steps[k]) in Deps(store[p[|p| - 1]].steps))
  }

  lemma {:induction false} CallsOfTarget(store: map<Id, Sequence>, p: seq<Id>, steps: seq<ChainStep>, k: nat)
    requires CallsFrom(store, p, steps) && k < |steps|
    requires steps[k].kind == SequenceCall && Target(steps[k]) != "" && Target(steps[k]) in store
    ensures CallsFrom(store, p + [Target(steps[k])], LoadAll(store[Target(steps[k])].steps))
  {
    var g, id := StoreGraph(store), Target(steps[k]);
    assert |p| > 0 ==> Edge(g, p[|p| - 1], id);
    WalkExtends(g, p, id);
    forall j | 0 <= j < |store[id].steps| && LoadAll(store[id].steps)[j].kind == SequenceCall
               && Target(LoadAll(store[id].steps)[j]) != ""
      ensures Target(LoadAll(store[id].steps)[j]) in Deps(store[id].steps)
    {
      FollowedIsChecked(store[id].steps, j);
    }
  }

  /** A chain of calls is a walk of references the cycle check saw. */
  lemma {:induction false} CallsDownIsWalk(steps: seq<ChainStep>, store: map<Id, Sequence>, n: nat, p: seq<Id>) returns (q: seq<Id>)
    requires CallsFrom(store, p, steps) && CallsDown(steps, store, n)
    ensures Walk(StoreGraph(store), q) && |q| == |p| + n
    decreases n
  {
    if n == 0 {
      return p;
    }
    var k :| 0 <= k < |steps| && CallDown(steps[k], store, n - 1);
    CallsOfTarget(store, p, steps, k);
    q := CallsDownIsWalk(LoadAll(store[Target(steps[k])].steps), store, n - 1, p + [Target(steps[k])]);
  }

  /** On an acyclic store of at most 20 sequences the guard never fires. */
  lemma {:induction false} AcyclicStoreNeverTooDeep(steps: seq<ChainStep>, store: map<Id, Sequence>, offset: int, prefix: string)
    requires Acyclic(StoreGraph(store)) && |store| <= MAX_DEPTH
    ensures Expand(steps, store, offset, prefix, 0) != Err(DepthExceeded)
  {
    assert StoreGraph(store).Keys == store.Keys;
    if Expand(steps, store, offset, prefix, 0) == Err(DepthExceeded) {
      assert CallsFrom(store, [], steps);
      hide *;
      DepthGuardIff(steps, store, offset, prefix, 0);
      var q := CallsDownIsWalk(steps, store, MAX_DEPTH + 1, []);
      AcyclicWalkIsShort(StoreGraph(store), q);
    }
  }

  ghost predicate NoCalls(steps: seq<ChainStep>) {
    forall k :: 0 <= k < |steps| ==> steps[k].kind != SequenceCall
  }

  /** A successful expansion holds no call any more. */
  lemma {:induction false} ExpandedHasNoCalls(steps: seq<ChainStep>, store: map<Id, Sequence>, offset: int, prefix: string, depth: nat)
    ensures var r := Expand(steps, store, offset, prefix, depth); r.Ok? ==> NoCalls(r.value)
    decreases Budget(depth), |steps|
  {
    hide ExpandOne;
    if depth <= MAX_DEPTH && steps != [] {
      var n := |steps| - 1;
      ExpandedHasNoCalls(steps[..n], store, offset, prefix, depth);
      var front := Expand(steps[..n], store, offset, prefix, depth);
      if front.Ok? {
        OneHasNoCalls(steps[n], store, offset, prefix, |front.value|, depth);
      }
    }
  }

  lemma {:induction false} OneHasNoCalls(step: ChainStep, store: map<Id, Sequence>, offset: int, prefix: string, before: nat, depth: nat)
    requires depth <= MAX_DEPTH
    ensures var r := ExpandOne(step, store, offset, prefix, before, depth); r.Ok? ==> NoCalls(r.value)
    decreases Budget(depth), 0
  {
    hide Expand, LoadAll, Loadable;
    if CallsStored(step, store) {
      ExpandedHasNoCalls(LoadAll(store[Target(step)].steps), store, CallNumber(step, before) * 1000,
                         Titled(prefix, step.name), depth + 1);
    }
  }
}
