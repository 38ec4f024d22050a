/** The numbers of the flattened steps: when they are distinct, where gotos lead, and in which
    order the run visits the steps. */
module Numbering {
  import opened Prelude
  import opened Digraph
  import opened ChainModels
  import opened Expansion
  import opened Placement

  predicate InRange(steps: seq<ChainStep>) {
    forall i :: 0 <= i < |steps| ==> 1 <= steps[i].number <= 999
  }

  /** The list of steps reached from `steps` by the calls on `path`: the empty path is `steps`
      itself; there is none where the path leaves the call tree. */
  function ListAt(steps: seq<ChainStep>, store: map<Id, Sequence>, path: Address): seq<ChainStep>
    decreases |path|
  {
    if path == [] then steps
    else if path[0] >= |steps| then []
    else ListAt(InnerOf(store, steps[path[0]]), store, path[1..])
  }

  predicate AllPositive(steps: seq<ChainStep>) {
    forall i :: 0 <= i < |steps| ==> steps[i].number > 0
  }

  /** All numbers of the top level and of every sequence it calls, directly or not, are
      positive, as renumbering and the save check leave them. */
  ghost predicate NumbersPositive(steps: seq<ChainStep>, store: map<Id, Sequence>) {
    forall path: Address :: AllPositive(ListAt(steps, store, path))
  }

  lemma {:induction false} CalledPositive(steps: seq<ChainStep>, store: map<Id, Sequence>, i: nat)
    requires NumbersPositive(steps, store) && i < |steps|
    ensures AllPositive(steps) && NumbersPositive(InnerOf(store, steps[i]), store)
  {
    hide AllPositive;
    assert AllPositive(ListAt(steps, store, []));
    forall path: Address
      ensures AllPositive(ListAt(InnerOf(store, steps[i]), store, path))
    {
      assert ([i] + path)[1..] == path;
      assert AllPositive(ListAt(steps, store, [i] + path));
    }
  }

  /** All numbers of the top level and of every sequence it calls, directly or not, are in
      1..999. What else is stored does not matter. */
  ghost predicate NumbersInRange(steps: seq<ChainStep>, store: map<Id, Sequence>) {
    forall path: Address :: InRange(ListAt(steps, store, path))
  }

  lemma {:induction false} CalledInRange(steps: seq<ChainStep>, store: map<Id, Sequence>, i: nat)
    requires NumbersInRange(steps, store) && i < |steps|
    ensures InRange(steps) && NumbersInRange(InnerOf(store, steps[i]), store)
  {
    assert InRange(ListAt(steps, store, []));
    forall path: Address
      ensures InRange(ListAt(InnerOf(store, steps[i]), store, path))
    {
      assert ([i] + path)[1..] == path;
      assert InRange(ListAt(steps, store, [i] + path));
    }
  }

  ghost predicate DistinctNumbers(steps: seq<ChainStep>) {
    forall i, j :: 0 <= i < j < |steps| ==> steps[i].number != steps[j].number
  }

  /** Called sequences call no further ones. */
  ghost predicate OneLevel(steps: seq<ChainStep>, store: map<Id, Sequence>) {
    forall i, k :: 0 <= i < |steps| && 0 <= k < |InnerOf(store, steps[i])| ==>
      InnerOf(store, steps[i])[k].kind != SequenceCall
  }

  /** Number of the innermost call around a leaf; 0 for a plain top-level step. */
  function CallOf(steps: seq<ChainStep>, store: map<Id, Sequence>, a: Address): int
    decreases |a|
  {
    if |a| <= 1 || a[0] >= |steps| then 0
    else if |a| == 2 then steps[a[0]].number
    else CallOf(InnerOf(store, steps[a[0]]), store, a[1..])
  }

  /** The number the step carries in its own sequence. */
  function OwnNumber(steps: seq<ChainStep>, store: map<Id, Sequence>, a: Address): int
    decreases |a|
  {
    if |a| == 0 || a[0] >= |steps| then 0
    else if |a| == 1 then steps[a[0]].number
    else OwnNumber(InnerOf(store, steps[a[0]]), store, a[1..])
  }

  /** At any nesting a leaf's number is made of its innermost call's number and its own. */
  lemma {:induction false} PlacedNumber(steps: seq<ChainStep>, store: map<Id, Sequence>, a: Address, offset: int,
                                        prefix: string, depth: nat)
    requires IsLeaf(steps, store, a) && NumbersPositive(steps, store)
    ensures var n := Placed(steps, store, a, offset, prefix, depth).number;
      && n == (if |a| == 1 then offset else 1000 * CallOf(steps, store, a)) + OwnNumber(steps, store, a)
      && OwnNumber(steps, store, a) > 0
      && (|a| > 1 ==> CallOf(steps, store, a) > 0)
    decreases |a|
  {
    CalledPositive(steps, store, a[0]);
    if |a| > 1 {
      var step := steps[a[0]];
      PlacedNumber(InnerOf(store, step), store, a[1..], BlockNumber(steps, store, a[0], depth) * 1000,
                   Titled(prefix, step.name), depth + 1);
    }
  }

  lemma {:induction false} InRangeIsPositive(steps: seq<ChainStep>, store: map<Id, Sequence>)
    requires NumbersInRange(steps, store)
    ensures NumbersPositive(steps, store)
  {
    forall path: Address
      ensures AllPositive(ListAt(steps, store, path))
    {
      assert InRange(ListAt(steps, store, path));
    }
  }

  lemma {:induction false} OwnInRange(steps: seq<ChainStep>, store: map<Id, Sequence>, a: Address)
    requires IsLeaf(steps, store, a) && NumbersInRange(steps, store)
    ensures NumbersPositive(steps, store) && OwnNumber(steps, store, a) <= 999
    decreases |a|
  {
    InRangeIsPositive(steps, store);
    CalledInRange(steps, store, a[0]);
    if |a| > 1 {
      OwnInRange(InnerOf(store, steps[a[0]]), store, a[1..]);
    }
  }

  /** What a leaf's number comes to. */
  function LeafNumber(steps: seq<ChainStep>, store: map<Id, Sequence>, a: Address): int {
    1000 * CallOf(steps, store, a) + OwnNumber(steps, store, a)
  }

  /** The order of the run at any nesting: by number of the innermost call first, plain
      top-level steps before every call, and by own number within a call. In particular two
      leaves share a number exactly when both parts agree. */
  lemma {:induction false} RunOrder(steps: seq<ChainStep>, store: map<Id, Sequence>, a: Address, b: Address)
    requires IsLeaf(steps, store, a) && IsLeaf(steps, store, b) && NumbersInRange(steps, store)
    ensures var (ca, cb) := (CallOf(steps, store, a), CallOf(steps, store, b));
      var (oa, ob) := (OwnNumber(steps, store, a), OwnNumber(steps, store, b));
      var (na, nb) := (Placed(steps, store, a, 0, "", 0).number, Placed(steps, store, b, 0, "", 0).number);
      && (na < nb <==> ca < cb || (ca == cb && oa < ob))
      && (na == nb <==> ca == cb && oa == ob)
      && (ca == 0 <==> |a| == 1)
  {
    OwnInRange(steps, store, a);
    OwnInRange(steps, store, b);
    PlacedNumber(steps, store, a, 0, "", 0);
    PlacedNumber(steps, store, b, 0, "", 0);
  }

  lemma {:induction false} SameNumberSameLeaf(steps: seq<ChainStep>, store: map<Id, Sequence>, a: Address, b: Address)
    requires IsLeaf(steps, store, a) && IsLeaf(steps, store, b) && NumbersInRange(steps, store)
    requires OneLevel(steps, store) && DistinctNumbers(steps)
    requires forall i :: 0 <= i < |steps| ==> DistinctNumbers(InnerOf(store, steps[i]))
    requires CallOf(steps, store, a) == CallOf(steps, store, b) && OwnNumber(steps, store, a) == OwnNumber(steps, store, b)
    ensures a == b
  {
    RunOrder(steps, store, a, b);
    RunOrder(steps, store, b, a);
    assert |a| > 1 ==> |a[1..]| == 1;
    assert |b| > 1 ==> |b[1..]| == 1;
    if |a| == 2 {
      assert a[0] == b[0];
      assert a[1..][0] == b[1..][0];
    }
  }

  /** Different leaves differ in their innermost call's number or in their own. */
  ghost predicate LeavesDiffer(steps: seq<ChainStep>, store: map<Id, Sequence>) {
    forall a: Address, b: Address :: IsLeaf(steps, store, a) && IsLeaf(steps, store, b) && a != b ==>
      CallOf(steps, store, a) != CallOf(steps, store, b) || OwnNumber(steps, store, a) != OwnNumber(steps, store, b)
  }

  lemma {:induction false} PositionOf(steps: seq<ChainStep>, store: map<Id, Sequence>, a: Address) returns (k: nat)
    requires Expand(steps, store, 0, "", 0).Ok? && IsLeaf(steps, store, a)
    ensures var r := Expand(steps, store, 0, "", 0).value;
      k < |r| == |Leaves(steps, store, 0)| && Leaves(steps, store, 0)[k] == a && r[k] == Placed(steps, store, a, 0, "", 0)
  {
    AllLeavesListed(steps, store, 0, "", 0, a);
    ExpandedArePlaced(steps, store, 0, "", 0);
    hide Expand, Leaves, IsLeaf, Placed;
    k :| 0 <= k < |Leaves(steps, store, 0)| && Leaves(steps, store, 0)[k] == a;
  }

  lemma {:induction false} LeafAt(steps: seq<ChainStep>, store: map<Id, Sequence>, k: nat) returns (a: Address)
    requires Expand(steps, store, 0, "", 0).Ok? && k < |Expand(steps, store, 0, "", 0).value|
    ensures k < |Leaves(steps, store, 0)| && a == Leaves(steps, store, 0)[k] && IsLeaf(steps, store, a)
    ensures Expand(steps, store, 0, "", 0).value[k] == Placed(steps, store, a, 0, "", 0)
  {
    ExpandedArePlaced(steps, store, 0, "", 0);
    a := Leaves(steps, store, 0)[k];
  }

  lemma {:induction false} PositionsDiffer(steps: seq<ChainStep>, store: map<Id, Sequence>, i: nat, j: nat)
    requires i < j < |Leaves(steps, store, 0)|
    ensures Leaves(steps, store, 0)[i] != Leaves(steps, store, 0)[j]
  {
    LeavesSorted(steps, store, 0);
    LexIrreflexive(Leaves(steps, store, 0)[i]);
  }

  /** At any nesting the flattened numbers are distinct, and so no step is lost in the table the
      run is driven by, if and only if no two leaves agree in both parts of their number. */
  lemma {:induction false} DistinctIff(steps: seq<ChainStep>, store: map<Id, Sequence>)
    requires Expand(steps, store, 0, "", 0).Ok? && NumbersInRange(steps, store)
    ensures DistinctNumbers(Expand(steps, store, 0, "", 0).value) <==> LeavesDiffer(steps, store)
  {
    hide *;
    if LeavesDiffer(steps, store) {
      DifferentNumbers(steps, store);
    }
    if DistinctNumbers(Expand(steps, store, 0, "", 0).value) {
      DifferentLeaves(steps, store);
    }
  }

  lemma {:induction false} DifferentNumbers(steps: seq<ChainStep>, store: map<Id, Sequence>)
    requires Expand(steps, store, 0, "", 0).Ok? && NumbersInRange(steps, store) && LeavesDiffer(steps, store)
    ensures DistinctNumbers(Expand(steps, store, 0, "", 0).value)
  {
    hide Expand, Leaves, IsLeaf, Placed, CallOf, OwnNumber, NumbersInRange;
    var r := Expand(steps, store, 0, "", 0).value;
    forall i, j | 0 <= i < j < |r|
      ensures r[i].number != r[j].number
    {
      var a := LeafAt(steps, store, i);
      var b := LeafAt(steps, store, j);
      PositionsDiffer(steps, store, i, j);
      RunOrder(steps, store, a, b);
    }
  }

  lemma {:induction false} DifferentLeaves(steps: seq<ChainStep>, store: map<Id, Sequence>)
    requires Expand(steps, store, 0, "", 0).Ok? && NumbersInRange(steps, store)
    requires DistinctNumbers(Expand(steps, store, 0, "", 0).value)
    ensures LeavesDiffer(steps, store)
  {
    hide Expand, Leaves, IsLeaf, Placed, CallOf, OwnNumber, NumbersInRange;
    forall a: Address, b: Address | IsLeaf(steps, store, a) && IsLeaf(steps, store, b) && a != b
      ensures CallOf(steps, store, a) != CallOf(steps, store, b) || OwnNumber(steps, store, a) != OwnNumber(steps, store, b)
    {
      var i := PositionOf(steps, store, a);
      var j := PositionOf(steps, store, b);
      RunOrder(steps, store, a, b);
    }
  }

  /** With one level of calls and numbers in 1..999, distinct in each list, all flattened
      numbers are distinct, so no step is lost in the table the run is driven by. */
  lemma {:induction false} OneLevelIsDistinct(steps: seq<ChainStep>, store: map<Id, Sequence>)
    requires Expand(steps, store, 0, "", 0).Ok? && NumbersInRange(steps, store)
    requires OneLevel(steps, store) && DistinctNumbers(steps)
    requires forall i :: 0 <= i < |steps| ==> DistinctNumbers(InnerOf(store, steps[i]))
    ensures DistinctNumbers(Expand(steps, store, 0, "", 0).value)
  {
    forall a: Address, b: Address | IsLeaf(steps, store, a) && IsLeaf(steps, store, b) && a != b
      ensures CallOf(steps, store, a) != CallOf(steps, store, b) || OwnNumber(steps, store, a) != OwnNumber(steps, store, b)
    {
      if CallOf(steps, store, a) == CallOf(steps, store, b) && OwnNumber(steps, store, a) == OwnNumber(steps, store, b) {
        SameNumberSameLeaf(steps, store, a, b);
      }
    }
    DistinctIff(steps, store);
  }

  /** A goto that names a step of its own sequence is rewritten to the number of the copy of
      that step made by the same call, at any nesting. */
  lemma {:induction false} GotoStaysInItsCall(steps: seq<ChainStep>, store: map<Id, Sequence>, a: Address, sibling: nat,
                                              alt: nat, offset: int, prefix: string, depth: nat)
    requires IsLeaf(steps, store, a)
    requires var b := a[..|a| - 1] + [sibling];
      && IsLeaf(steps, store, b)
      && Unmoved(steps, store, a).kind == Goto
      && alt < |Unmoved(steps, store, a).alternatives|
      && Unmoved(steps, store, a).alternatives[alt].targetStep == Some(OwnNumber(steps, store, b))
    ensures var b := a[..|a| - 1] + [sibling];
      var moved := Placed(steps, store, a, offset, prefix, depth);
      && moved.kind == Goto && alt < |moved.alternatives|
      && moved.alternatives[alt].targetStep == Some(Placed(steps, store, b, offset, prefix, depth).number)
    decreases |a|
  {
    var b := a[..|a| - 1] + [sibling];
    if |a| > 1 {
      var step := steps[a[0]];
      assert a[1..][..|a[1..]| - 1] + [sibling] == b[1..];
      GotoStaysInItsCall(InnerOf(store, step), store, a[1..], sibling, alt, BlockNumber(steps, store, a[0], depth) * 1000,
                         Titled(prefix, step.name), depth + 1);
    }
  }

  /** The stored step at a leaf. */
  ghost function Unmoved(steps: seq<ChainStep>, store: map<Id, Sequence>, a: Address): ChainStep
    requires IsLeaf(steps, store, a)
    decreases |a|
  {
    if |a| == 1 then steps[a[0]] else Unmoved(InnerOf(store, steps[a[0]]), store, a[1..])
  }

  /** At any nesting the target of a goto is rewritten to the number its own call would give it. */
  lemma {:induction false} PlacedTarget(steps: seq<ChainStep>, store: map<Id, Sequence>, a: Address, offset: int,
                                        prefix: string, depth: nat, k: nat)
    requires IsLeaf(steps, store, a) && NumbersPositive(steps, store)
    requires var step := Unmoved(steps, store, a);
      step.kind == Goto && k < |step.alternatives| && step.alternatives[k].targetStep.Some?
    ensures var (before, after) := (Unmoved(steps, store, a), Placed(steps, store, a, offset, prefix, depth));
      && k < |after.alternatives|
      && after.alternatives[k].targetStep
         == Some((if |a| == 1 then offset else 1000 * CallOf(steps, store, a)) + before.alternatives[k].targetStep.value)
    decreases |a|
  {
    CalledPositive(steps, store, a[0]);
    if |a| > 1 {
      var step := steps[a[0]];
      PlacedTarget(InnerOf(store, step), store, a[1..], BlockNumber(steps, store, a[0], depth) * 1000,
                   Titled(prefix, step.name), depth + 1, k);
    }
  }

  // ---- the limits of the scheme ----

  const CALL_C := RawStep(5, "", "inner call", SequenceCall, 100, [NO_FIELDS.(sequenceId := "c")], NO_FIELDS)
  const LEAF := RawStep(1, "", "leaf", Llm, 100, [NO_FIELDS], NO_FIELDS)
  const NESTED := map["a" := Sequence("a", "A", "", "", [CALL_C], []), "c" := Sequence("c", "C", "", "", [LEAF], [])]

  function CallA(number: int): ChainStep {
    ChainStep(number, "", "call", SequenceCall, 100, [NO_FIELDS.(sequenceId := "a")])
  }

  /** Two levels are too many: nested calls do not add the enclosing offset, so calling the
      same sequence from steps 1 and 2 yields the number 5001 twice. */
  lemma {:induction false} TwoLevelsCollide()
    ensures var r := Expand([CallA(1), CallA(2)], NESTED, 0, "", 0);
      r.Ok? && |r.value| == 2 && r.value[0].number == r.value[1].number == 5001
  {
    var steps := [CallA(1), CallA(2)];
    assert steps[..1] == [CallA(1)];
    ExpandSingle(CallA(1), NESTED, 0, "", 0);
    BlockOfA(1000, "call");
    BlockOfA(2000, "call");
    assert Expand(steps[..1], NESTED, 0, "", 0) == Expand(LoadAll([CALL_C]), NESTED, 1000, "call", 1);
    assert ExpandOne(CallA(2), NESTED, 0, "", 1, 0) == Expand(LoadAll([CALL_C]), NESTED, 2000, "call", 1);
  }

  lemma {:induction false} ExpandSingle(step: ChainStep, store: map<Id, Sequence>, offset: int, prefix: string, depth: nat)
    requires depth <= MAX_DEPTH
    ensures Expand([step], store, offset, prefix, depth) == ExpandOne(step, store, offset, prefix, 0, depth)
  {
    var one := ExpandOne(step, store, offset, prefix, 0, depth);
    assert [step][..0] == [];
    assert one.Ok? ==> [] + one.value == one.value;
  }

  lemma {:induction false} BlockOfA(offset: int, prefix: string)
    ensures var r := Expand(LoadAll([CALL_C]), NESTED, offset, prefix, 1);
      r.Ok? && |r.value| == 1 && r.value[0].number == 5001
  {
    var title := Titled(prefix, "inner call");
    assert LoadAll([CALL_C]) == [Load(CALL_C)] && LoadAll([LEAF]) == [Load(LEAF)];
    ExpandSingle(Load(CALL_C), NESTED, offset, prefix, 1);
    ExpandSingle(Load(LEAF), NESTED, 5000, title, 2);
  }

  // A chain of sequences, each calling the next.

  function CallTo(id: Id): RawStep {
    RawStep(1, "", "", SequenceCall, 100, [NO_FIELDS.(sequenceId := id)], NO_FIELDS)
  }

  function ChainSteps(ids: seq<Id>, k: nat): seq<RawStep>
    requires k < |ids|
  {
    if k == |ids| - 1 then [LEAF] else [CallTo(ids[k + 1])]
  }

  ghost predicate Linked(store: map<Id, Sequence>, ids: seq<Id>, k: nat)
    requires k < |ids|
  {
    ids[k] != "" && ids[k] in store && store[ids[k]].steps == ChainSteps(ids, k)
  }

  ghost predicate IsChain(store: map<Id, Sequence>, ids: seq<Id>) {
    && Distinct(ids)
    && (forall k :: 0 <= k < |ids| ==> Linked(store, ids, k))
    && (forall id :: id in store ==> id in ids)
  }

  /** The bound of 20 sequences is tight: calling the first of a chain of 21 or more makes the
      guard fire although no sequence can reach itself. */
  lemma {:induction false} LongChainTooDeep(store: map<Id, Sequence>, ids: seq<Id>)
    requires IsChain(store, ids) && |ids| > MAX_DEPTH
    ensures Acyclic(StoreGraph(store))
    ensures Expand([Load(CallTo(ids[0]))], store, 0, "", 0) == Err(DepthExceeded)
  {
    ChainFails(store, ids, 0, 0, "");
    forall p
      ensures !Cycle(StoreGraph(store), p)
    {
      if Cycle(StoreGraph(store), p) {
        var k :| 0 <= k < |ids| && ids[k] == p[0];
        ChainClimbs(store, ids, p, 0, k, |p| - 1);
      }
    }
  }

  lemma {:induction false} ChainFails(store: map<Id, Sequence>, ids: seq<Id>, k: nat, offset: int, prefix: string)
    requires IsChain(store, ids) && |ids| > MAX_DEPTH && k <= MAX_DEPTH
    ensures Expand([Load(CallTo(ids[k]))], store, offset, prefix, k) == Err(DepthExceeded)
    decreases MAX_DEPTH - k
  {
    hide IsChain;
    assert Linked(store, ids, k) by {
      ChainIsLinked(store, ids, k);
    }
    var step := Load(CallTo(ids[k]));
    ExpandSingle(step, store, offset, prefix, k);
    assert Target(step) == ids[k];
    assert Loadable(ChainSteps(ids, k)[0]);
    assert LoadAll(ChainSteps(ids, k)) == [Load(ChainSteps(ids, k)[0])];
    if k < MAX_DEPTH {
      ChainFails(store, ids, k + 1, 1000, Titled(prefix, step.name));
    }
  }

  lemma {:induction false} ChainIsLinked(store: map<Id, Sequence>, ids: seq<Id>, k: nat)
    requires IsChain(store, ids) && k < |ids|
    ensures Linked(store, ids, k)
  {
  }

  lemma {:induction false} DepsOfLink(ids: seq<Id>, k: nat)
    requires k < |ids| && (k < |ids| - 1 ==> ids[k + 1] != "")
    ensures Deps(ChainSteps(ids, k)) == (if k < |ids| - 1 then [ids[k + 1]] else [])
  {
    var steps := ChainSteps(ids, k);
    assert steps[..0] == [] && steps[0].alternatives[..0] == [];
    assert Deps([]) == [] && AlternativeDeps([]) == [];
  }

  lemma {:induction false} NextInChain(store: map<Id, Sequence>, ids: seq<Id>, k: nat, b: Id)
    requires k < |ids| && Linked(store, ids, k) && (k < |ids| - 1 ==> Linked(store, ids, k + 1))
    requires Edge(StoreGraph(store), ids[k], b)
    ensures k < |ids| - 1 && b == ids[k + 1]
  {
    DepsOfLink(ids, k);
  }

  /** A walk through a chain moves up one link with every step. */
  lemma {:induction false} ChainClimbs(store: map<Id, Sequence>, ids: seq<Id>, p: seq<Id>, i: nat, k: nat, j: nat)
    requires IsChain(store, ids) && Walk(StoreGraph(store), p) && i <= j < |p|
    requires k < |ids| && p[i] == ids[k]
    ensures k + j - i < |ids| && p[j] == ids[k + j - i]
    decreases j - i
  {
    hide Deps, StoreGraph, ChainSteps;
    if i < j {
      assert StepAt(StoreGraph(store), p, i);
      NextInChain(store, ids, k, p[i + 1]);
      ChainClimbs(store, ids, p, i + 1, k + 1, j);
    }
  }
}
