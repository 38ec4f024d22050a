/** From the store to the end of a run: what the checks on stored sequences guarantee about
    the chains expanded from them. */
module WholeRun {
  import opened Prelude
  import opened Digraph
  import opened ChainModels
  import opened Expansion
  import opened Placement
  import opened Numbering
  import opened ChainRun

  /** `steps` has a step numbered `n` that is no call: the only steps that survive the
      expansion. */
  ghost predicate HasPlain(steps: seq<ChainStep>, n: int) {
    exists i :: 0 <= i < |steps| && steps[i].kind != SequenceCall && steps[i].number == n
  }

  /** Every goto of the list names a step of the same list that is no call. */
  ghost predicate GotosNamePlain(steps: seq<ChainStep>) {
    forall i, k :: 0 <= i < |steps| && steps[i].kind == Goto && 0 <= k < |steps[i].alternatives| ==>
      var alt := steps[i].alternatives[k];
      alt.fallThrough || alt.targetStep.None? || HasPlain(steps, alt.targetStep.value)
  }

  /** So does every goto of the top level and of every sequence it calls, directly or not. */
  ghost predicate AllNamePlain(steps: seq<ChainStep>, store: map<Id, Sequence>) {
    forall path: Address :: GotosNamePlain(ListAt(steps, store, path))
  }

  lemma {:induction false} CalledNamePlain(steps: seq<ChainStep>, store: map<Id, Sequence>, i: nat)
    requires AllNamePlain(steps, store) && i < |steps|
    ensures GotosNamePlain(steps) && AllNamePlain(InnerOf(store, steps[i]), store)
  {
    hide GotosNamePlain;
    assert GotosNamePlain(ListAt(steps, store, []));
    forall path: Address
      ensures GotosNamePlain(ListAt(InnerOf(store, steps[i]), store, path))
    {
      assert ([i] + path)[1..] == path;
      assert GotosNamePlain(ListAt(steps, store, [i] + path));
    }
  }

  /** What the request model demands of a top-level step. */
  ghost predicate Wellformed(steps: seq<ChainStep>) {
    forall i :: 0 <= i < |steps| ==> steps[i].visitCap >= 1 && steps[i].alternatives != []
  }

  ghost predicate HasNumber(flat: seq<ChainStep>, n: int) {
    exists k :: 0 <= k < |flat| && flat[k].number == n
  }

  // ---- the table of the run ----

  lemma {:induction false} TableHolds(flat: seq<ChainStep>, n: int)
    ensures n in ByNumber(flat) <==> HasNumber(flat, n)
    ensures n in ByNumber(flat) ==> ByNumber(flat)[n] in flat
  {
    if flat != [] {
      var front, last := flat[..|flat| - 1], flat[|flat| - 1];
      TableHolds(front, n);
      assert flat == front + [last];
      assert HasNumber(flat, n) <==> HasNumber(front, n) || last.number == n by {
        assert forall k :: 0 <= k < |front| ==> flat[k] == front[k];
      }
    }
  }

  /** A leaf's step keeps its kind and its choice between falling through and jumping. */
  lemma {:induction false} PlacedKeeps(steps: seq<ChainStep>, store: map<Id, Sequence>, a: Address, offset: int,
                                       prefix: string, depth: nat, k: nat)
    requires IsLeaf(steps, store, a)
    ensures var (before, after) := (Unmoved(steps, store, a), Placed(steps, store, a, offset, prefix, depth));
      && after.kind == before.kind && |after.alternatives| == |before.alternatives|
      && after.visitCap == before.visitCap
      && (k < |after.alternatives| ==>
          && after.alternatives[k].fallThrough == before.alternatives[k].fallThrough
          && after.alternatives[k].targetStep.None? == before.alternatives[k].targetStep.None?)
    decreases |a|
  {
    if |a| > 1 {
      var step := steps[a[0]];
      PlacedKeeps(InnerOf(store, step), store, a[1..], BlockNumber(steps, store, a[0], depth) * 1000,
                  Titled(prefix, step.name), depth + 1, k);
    }
  }

  /** The step a goto at a leaf names, as a leaf beside it. */
  lemma {:induction false} NamedSibling(steps: seq<ChainStep>, store: map<Id, Sequence>, a: Address, k: nat) returns (sibling: nat)
    requires IsLeaf(steps, store, a) && AllNamePlain(steps, store)
    requires var step := Unmoved(steps, store, a);
      && step.kind == Goto && k < |step.alternatives|
      && !step.alternatives[k].fallThrough && step.alternatives[k].targetStep.Some?
    ensures var b := a[..|a| - 1] + [sibling];
      IsLeaf(steps, store, b) && Unmoved(steps, store, a).alternatives[k].targetStep == Some(OwnNumber(steps, store, b))
    decreases |a|
  {
    CalledNamePlain(steps, store, a[0]);
    if |a| == 1 {
      assert HasPlain(steps, steps[a[0]].alternatives[k].targetStep.value);
      sibling :| 0 <= sibling < |steps| && steps[sibling].kind != SequenceCall
                 && steps[sibling].number == steps[a[0]].alternatives[k].targetStep.value;
      assert a[..|a| - 1] + [sibling] == [sibling];
    } else {
      var inner := InnerOf(store, steps[a[0]]);
      sibling := NamedSibling(inner, store, a[1..], k);
      var b := a[..|a| - 1] + [sibling];
      assert b[0] == a[0] && b[1..] == a[1..][..|a[1..]| - 1] + [sibling];
    }
  }

  /** Every leaf's number is in the flattened list. */
  lemma {:induction false} LeafIsFlattened(steps: seq<ChainStep>, store: map<Id, Sequence>, a: Address)
    requires Expand(steps, store, 0, "", 0).Ok? && IsLeaf(steps, store, a)
    ensures HasNumber(Expand(steps, store, 0, "", 0).value, Placed(steps, store, a, 0, "", 0).number)
  {
    AllLeavesListed(steps, store, 0, "", 0, a);
    ExpandedArePlaced(steps, store, 0, "", 0);
    var leaves := Leaves(steps, store, 0);
    var k :| 0 <= k < |leaves| && leaves[k] == a;
    assert Expand(steps, store, 0, "", 0).value[k].number == Placed(steps, store, a, 0, "", 0).number;
  }

  /** When no goto names a call, the number every goto of the flattened chain was rewritten to
      is the number of some step of the run, at any nesting. */
  lemma {:induction false} GotosFindSteps(steps: seq<ChainStep>, store: map<Id, Sequence>)
    requires Expand(steps, store, 0, "", 0).Ok? && AllNamePlain(steps, store)
    ensures TargetsExist(ProgramOf(Expand(steps, store, 0, "", 0).value))
  {
    var flat := Expand(steps, store, 0, "", 0).value;
    forall n, k: nat | n in ByNumber(flat) && ByNumber(flat)[n].kind == Goto && k < |ByNumber(flat)[n].alternatives|
      ensures var alt := ByNumber(flat)[n].alternatives[k];
        alt.fallThrough || alt.targetStep.None? || alt.targetStep.value in ByNumber(flat)
    {
      TableHolds(flat, n);
      FlatGotoFinds(steps, store, ByNumber(flat)[n], k);
    }
  }

  lemma {:induction false} FlatGotoFinds(steps: seq<ChainStep>, store: map<Id, Sequence>, step: ChainStep, k: nat)
    requires Expand(steps, store, 0, "", 0).Ok? && AllNamePlain(steps, store)
    requires step in Expand(steps, store, 0, "", 0).value && step.kind == Goto && k < |step.alternatives|
    ensures var alt := step.alternatives[k];
      alt.fallThrough || alt.targetStep.None? || alt.targetStep.value in ByNumber(Expand(steps, store, 0, "", 0).value)
  {
    var flat := Expand(steps, store, 0, "", 0).value;
    ExpandedArePlaced(steps, store, 0, "", 0);
    var i :| 0 <= i < |flat| && flat[i] == step;
    var a := Leaves(steps, store, 0)[i];
    PlacedKeeps(steps, store, a, 0, "", 0, k);
    var alt := step.alternatives[k];
    if !alt.fallThrough && alt.targetStep.Some? {
      var sibling := NamedSibling(steps, store, a, k);
      GotoStaysInItsCall(steps, store, a, sibling, k, 0, "", 0);
      LeafIsFlattened(steps, store, a[..|a| - 1] + [sibling]);
      TableHolds(flat, alt.targetStep.value);
    }
  }

  /** A top-level number survives the expansion exactly when a plain step carries it: a goto to
      a call names a step the run does not have. */
  lemma {:induction false} TopLevelTargetIff(steps: seq<ChainStep>, store: map<Id, Sequence>, n: int)
    requires Expand(steps, store, 0, "", 0).Ok? && NumbersPositive(steps, store) && n <= 999
    ensures n in ByNumber(Expand(steps, store, 0, "", 0).value) <==> HasPlain(steps, n)
  {
    var flat := Expand(steps, store, 0, "", 0).value;
    TableHolds(flat, n);
    ExpandedArePlaced(steps, store, 0, "", 0);
    if k :| 0 <= k < |flat| && flat[k].number == n {
      var a := Leaves(steps, store, 0)[k];
      PlacedNumber(steps, store, a, 0, "", 0);
    }
    if i :| 0 <= i < |steps| && steps[i].kind != SequenceCall && steps[i].number == n {
      LeafIsFlattened(steps, store, [i]);
    }
  }

  /** Every number in the table of the run is that of some leaf. */
  lemma {:induction false} LeafOfNumber(steps: seq<ChainStep>, store: map<Id, Sequence>, n: int) returns (a: Address)
    requires Expand(steps, store, 0, "", 0).Ok? && n in ByNumber(Expand(steps, store, 0, "", 0).value)
    ensures IsLeaf(steps, store, a) && Placed(steps, store, a, 0, "", 0).number == n
  {
    var flat := Expand(steps, store, 0, "", 0).value;
    TableHolds(flat, n);
    ExpandedArePlaced(steps, store, 0, "", 0);
    hide Expand, Leaves, Placed, IsLeaf, ByNumber;
    var k :| 0 <= k < |flat| && flat[k].number == n;
    a := Leaves(steps, store, 0)[k];
  }

  /** Some leaf of the call tree comes out with number `n`. */
  ghost predicate IsLeafNumber(steps: seq<ChainStep>, store: map<Id, Sequence>, n: int) {
    exists a: Address :: IsLeaf(steps, store, a) && LeafNumber(steps, store, a) == n
  }

  /** The numbers the run knows are those of the leaves, at any nesting. */
  lemma {:induction false} NumberInTableIff(steps: seq<ChainStep>, store: map<Id, Sequence>, n: int)
    requires Expand(steps, store, 0, "", 0).Ok? && NumbersPositive(steps, store)
    ensures n in ByNumber(Expand(steps, store, 0, "", 0).value) <==> IsLeafNumber(steps, store, n)
  {
    var flat := Expand(steps, store, 0, "", 0).value;
    TableHolds(flat, n);
    hide Expand, IsLeaf, Placed, ByNumber, NumbersPositive;
    if n in ByNumber(flat) {
      var a := LeafOfNumber(steps, store, n);
      PlacedNumber(steps, store, a, 0, "", 0);
      FlatLeaf(steps, store, a);
      assert LeafNumber(steps, store, a) == n;
    }
    if a: Address :| IsLeaf(steps, store, a) && LeafNumber(steps, store, a) == n {
      PlacedNumber(steps, store, a, 0, "", 0);
      FlatLeaf(steps, store, a);
      LeafIsFlattened(steps, store, a);
    }
  }

  lemma {:induction false} FlatLeaf(steps: seq<ChainStep>, store: map<Id, Sequence>, a: Address)
    ensures |a| == 1 ==> CallOf(steps, store, a) == 0
  {
  }

  /** A run that stands at a number goes on to run out of steps if and only if no leaf has that
      number, whatever jumped there and at any nesting. */
  lemma {:induction false} LostIffNoLeaf(steps: seq<ChainStep>, store: map<Id, Sequence>, n: int, input: string,
                                         env: nat -> Choice, k: nat)
    requires Expand(steps, store, 0, "", 0).Ok? && Wellformed(steps) && NumbersPositive(steps, store)
    ensures Valid(ProgramOf(Expand(steps, store, 0, "", 0).value))
    ensures var p := ProgramOf(Expand(steps, store, 0, "", 0).value);
      (Run(p, input, env, k).status == Running(n) ==>
          (Run(p, input, env, k + 1).status == MissingTarget(n) <==> !IsLeafNumber(steps, store, n)))
  {
    var flat := Expand(steps, store, 0, "", 0).value;
    ExpandedIsWellformed(steps, store, 0, "", 0);
    ProgramIsValid(flat);
    NumberInTableIff(steps, store, n);
    var p := ProgramOf(flat);
    assert n in p.steps <==> IsLeafNumber(steps, store, n);
    hide *;
    if Run(p, input, env, k).status == Running(n) {
      RunMissingIff(p, input, env, k, n);
    }
  }

  /** For a number up to 999 that is: if and only if no plain top-level step carries it. */
  lemma {:induction false} LostIffNotPlain(steps: seq<ChainStep>, store: map<Id, Sequence>, n: int, input: string,
                                           env: nat -> Choice, k: nat)
    requires Expand(steps, store, 0, "", 0).Ok? && Wellformed(steps) && NumbersPositive(steps, store) && n <= 999
    ensures Valid(ProgramOf(Expand(steps, store, 0, "", 0).value))
    ensures var p := ProgramOf(Expand(steps, store, 0, "", 0).value);
      (Run(p, input, env, k).status == Running(n) ==>
          (Run(p, input, env, k + 1).status == MissingTarget(n) <==> !HasPlain(steps, n)))
  {
    hide Expand, HasPlain, IsLeafNumber, ByNumber, Run, ProgramOf, Valid, NumbersPositive, Wellformed;
    LostIffNoLeaf(steps, store, n, input, env, k);
    NumberInTableIff(steps, store, n);
    TopLevelTargetIff(steps, store, n);
  }

  lemma {:induction false} RunMissingIff(p: Program, input: string, env: nat -> Choice, k: nat, n: int)
    requires Valid(p) && Run(p, input, env, k).status == Running(n)
    ensures Run(p, input, env, k + 1).status == MissingTarget(n) <==> n !in p.steps
  {
    RunNext(p, input, env, k);
    var s := Run(p, input, env, k);
    hide Run;
    StepMissingIff(p, env(k), s);
  }

  lemma {:induction false} StepMissingIff(p: Program, c: Choice, s: State)
    requires Valid(p) && Keyed(p, s) && s.status.Running?
    ensures Step(p, c, s).status == MissingTarget(s.status.ptr) <==> s.status.ptr !in p.steps
  {
    hide Valid, Keyed;
  }

  // ---- where the gotos of a chain lead ----

  ghost predicate TargetKnown(flat: seq<ChainStep>, alt: Alternative) {
    alt.fallThrough || alt.targetStep.None? || HasNumber(flat, alt.targetStep.value)
  }

  /** Every goto of the flattened list names a number of the list. */
  ghost predicate FlatTargetsExist(flat: seq<ChainStep>) {
    forall i, k :: 0 <= i < |flat| && flat[i].kind == Goto && 0 <= k < |flat[i].alternatives| ==>
      TargetKnown(flat, flat[i].alternatives[k])
  }

  /** Alternative `k` of the goto at leaf `a` falls through, ends the run, or names a number that
      some leaf gets, counted in its own call. */
  ghost predicate LeadsToLeaf(steps: seq<ChainStep>, store: map<Id, Sequence>, a: Address, k: nat)
    requires IsLeaf(steps, store, a) && k < |Unmoved(steps, store, a).alternatives|
  {
    var alt := Unmoved(steps, store, a).alternatives[k];
    alt.fallThrough || alt.targetStep.None?
    || IsLeafNumber(steps, store, 1000 * CallOf(steps, store, a) + alt.targetStep.value)
  }

  ghost predicate GotosLeadToLeaves(steps: seq<ChainStep>, store: map<Id, Sequence>) {
    forall a: Address, k: nat ::
      IsLeaf(steps, store, a) && Unmoved(steps, store, a).kind == Goto && k < |Unmoved(steps, store, a).alternatives| ==>
        LeadsToLeaf(steps, store, a, k)
  }

  lemma {:induction false} LeadsIffKnown(steps: seq<ChainStep>, store: map<Id, Sequence>, a: Address, k: nat)
    requires Expand(steps, store, 0, "", 0).Ok? && NumbersPositive(steps, store)
    requires IsLeaf(steps, store, a) && Unmoved(steps, store, a).kind == Goto && k < |Unmoved(steps, store, a).alternatives|
    ensures var step := Placed(steps, store, a, 0, "", 0);
      && step.kind == Goto && k < |step.alternatives| == |Unmoved(steps, store, a).alternatives|
      && (LeadsToLeaf(steps, store, a, k) <==> TargetKnown(Expand(steps, store, 0, "", 0).value, step.alternatives[k]))
  {
    hide Expand, IsLeaf, Placed, Unmoved, ByNumber, NumbersPositive, IsLeafNumber, HasNumber;
    PlacedKeeps(steps, store, a, 0, "", 0, k);
    var alt := Unmoved(steps, store, a).alternatives[k];
    if !alt.fallThrough && alt.targetStep.Some? {
      PlacedTarget(steps, store, a, 0, "", 0, k);
      FlatLeaf(steps, store, a);
      var n := 1000 * CallOf(steps, store, a) + alt.targetStep.value;
      NumberInTableIff(steps, store, n);
      TableHolds(Expand(steps, store, 0, "", 0).value, n);
    }
  }

  /** At any nesting: the gotos of the flattened list all name numbers of the list if and only if
      the goto leaves lead to leaves. Then no goto of the run is lost; when the numbers are
      distinct, so that the run knows every flattened step, that is an equivalence too. */
  lemma {:induction false} GotosFindIff(steps: seq<ChainStep>, store: map<Id, Sequence>)
    requires Expand(steps, store, 0, "", 0).Ok? && NumbersPositive(steps, store)
    ensures var flat := Expand(steps, store, 0, "", 0).value;
      && (FlatTargetsExist(flat) <==> GotosLeadToLeaves(steps, store))
      && (GotosLeadToLeaves(steps, store) ==> TargetsExist(ProgramOf(flat)))
      && (DistinctNumbers(flat) ==> (TargetsExist(ProgramOf(flat)) <==> GotosLeadToLeaves(steps, store)))
  {
    var flat := Expand(steps, store, 0, "", 0).value;
    hide Expand, IsLeaf, Placed, Unmoved, ByNumber, NumbersPositive, LeadsToLeaf, TargetKnown, TargetsExist, DistinctNumbers;
    if FlatTargetsExist(flat) {
      forall a: Address, k: nat | IsLeaf(steps, store, a) && Unmoved(steps, store, a).kind == Goto
                                  && k < |Unmoved(steps, store, a).alternatives|
        ensures LeadsToLeaf(steps, store, a, k)
      {
        var i := PositionOf(steps, store, a);
        LeadsIffKnown(steps, store, a, k);
        assert flat[i].kind == Goto && k < |flat[i].alternatives|;
      }
    }
    if GotosLeadToLeaves(steps, store) {
      forall i, k: nat | 0 <= i < |flat| && flat[i].kind == Goto && k < |flat[i].alternatives|
        ensures TargetKnown(flat, flat[i].alternatives[k])
      {
        var a := LeafAt(steps, store, i);
        PlacedKeeps(steps, store, a, 0, "", 0, k);
        LeadsIffKnown(steps, store, a, k);
      }
    }
    TableTargets(flat);
  }

  /** The table holds flattened steps only, and with distinct numbers all of them. */
  lemma {:induction false} TableTargets(flat: seq<ChainStep>)
    ensures FlatTargetsExist(flat) ==> TargetsExist(ProgramOf(flat))
    ensures DistinctNumbers(flat) && TargetsExist(ProgramOf(flat)) ==> FlatTargetsExist(flat)
  {
    hide ByNumber, SortedNumbers, HasNumber;
    forall n
      ensures n in ByNumber(flat) <==> HasNumber(flat, n)
      ensures n in ByNumber(flat) ==> ByNumber(flat)[n] in flat
    {
      TableHolds(flat, n);
    }
    if DistinctNumbers(flat) {
      forall i: nat | i < |flat|
        ensures flat[i].number in ByNumber(flat) && ByNumber(flat)[flat[i].number] == flat[i]
      {
        NoStepLost(flat, i);
      }
    }
  }

  /** With distinct flattened numbers the table of the run holds the step of every leaf under the
      leaf's own number. */
  lemma {:induction false} TableAtLeaf(steps: seq<ChainStep>, store: map<Id, Sequence>, a: Address)
    requires Expand(steps, store, 0, "", 0).Ok? && DistinctNumbers(Expand(steps, store, 0, "", 0).value)
    requires IsLeaf(steps, store, a)
    ensures var step := Placed(steps, store, a, 0, "", 0);
      var table := ByNumber(Expand(steps, store, 0, "", 0).value);
      step.number in table && table[step.number] == step
  {
    hide Expand, Leaves, Placed, IsLeaf, ByNumber;
    var k := PositionOf(steps, store, a);
    NoStepLost(Expand(steps, store, 0, "", 0).value, k);
  }

  /** With distinct flattened numbers, at any nesting, a goto to a sibling step finds in the table
      of the run the copy of that step made by its own call. */
  lemma {:induction false} GotoFindsItsCopy(steps: seq<ChainStep>, store: map<Id, Sequence>, a: Address, sibling: nat, alt: nat)
    requires Expand(steps, store, 0, "", 0).Ok? && DistinctNumbers(Expand(steps, store, 0, "", 0).value)
    requires IsLeaf(steps, store, a)
    requires var b := a[..|a| - 1] + [sibling];
      && IsLeaf(steps, store, b)
      && Unmoved(steps, store, a).kind == Goto
      && alt < |Unmoved(steps, store, a).alternatives|
      && Unmoved(steps, store, a).alternatives[alt].targetStep == Some(OwnNumber(steps, store, b))
    ensures var b := a[..|a| - 1] + [sibling];
      var step := Placed(steps, store, a, 0, "", 0);
      var table := ByNumber(Expand(steps, store, 0, "", 0).value);
      && alt < |step.alternatives| && step.alternatives[alt].targetStep.Some?
      && var n := step.alternatives[alt].targetStep.value; n in table && table[n] == Placed(steps, store, b, 0, "", 0)
  {
    GotoStaysInItsCall(steps, store, a, sibling, alt, 0, "", 0);
    TableAtLeaf(steps, store, a[..|a| - 1] + [sibling]);
  }

  // ---- one level of calls ----

  /** A chain that expands, with one level of calls and numbers in 1..999, distinct in each
      list. */
  ghost predicate OneLevelChain(steps: seq<ChainStep>, store: map<Id, Sequence>) {
    && Expand(steps, store, 0, "", 0).Ok? && NumbersInRange(steps, store)
    && OneLevel(steps, store) && DistinctNumbers(steps)
    && forall i :: 0 <= i < |steps| ==> DistinctNumbers(InnerOf(store, steps[i]))
  }

  ghost predicate TargetsInRange(steps: seq<ChainStep>) {
    forall i, k :: 0 <= i < |steps| && steps[i].kind == Goto && 0 <= k < |steps[i].alternatives| ==>
      var alt := steps[i].alternatives[k];
      alt.fallThrough || alt.targetStep.None? || 1 <= alt.targetStep.value <= 999
  }

  lemma {:induction false} ListsOfOneLevel(steps: seq<ChainStep>, store: map<Id, Sequence>, path: Address)
    requires OneLevel(steps, store)
    ensures var list := ListAt(steps, store, path);
      list == [] || path == [] || (|path| == 1 && path[0] < |steps| && list == InnerOf(store, steps[path[0]]))
  {
    if |path| > 1 && path[0] < |steps| {
      var inner := InnerOf(store, steps[path[0]]);
      assert path[1] < |inner| ==> inner[path[1]].kind != SequenceCall;
      NothingBelow(store, path[1..][1..]);
    }
  }

  lemma {:induction false} NothingBelow(store: map<Id, Sequence>, path: Address)
    ensures ListAt([], store, path) == []
  {
  }

  /** With one level of calls every goto of the run finds a step if and only if the gotos of the
      top level and of the called sequences name plain steps of their own list. */
  lemma {:induction false} TargetsExistIff(steps: seq<ChainStep>, store: map<Id, Sequence>)
    requires OneLevelChain(steps, store)
    requires TargetsInRange(steps) && forall i :: 0 <= i < |steps| ==> TargetsInRange(InnerOf(store, steps[i]))
    ensures TargetsExist(ProgramOf(Expand(steps, store, 0, "", 0).value)) <==>
            GotosNamePlain(steps) && forall i :: 0 <= i < |steps| ==> GotosNamePlain(InnerOf(store, steps[i]))
  {
    var p := ProgramOf(Expand(steps, store, 0, "", 0).value);
    if GotosNamePlain(steps) && forall i :: 0 <= i < |steps| ==> GotosNamePlain(InnerOf(store, steps[i])) {
      forall path: Address
        ensures GotosNamePlain(ListAt(steps, store, path))
      {
        ListsOfOneLevel(steps, store, path);
      }
      GotosFindSteps(steps, store);
    }
    if TargetsExist(p) {
      hide GotosNamePlain, Expand, TargetsInRange, OneLevelChain, TargetsExist;
      TopGotosNamePlain(steps, store);
      forall i | 0 <= i < |steps|
        ensures GotosNamePlain(InnerOf(store, steps[i]))
      {
        InnerGotosNamePlain(steps, store, i);
      }
    }
  }

  /** The goto at a leaf finds its target in the table. */
  lemma {:induction false} TargetInTable(steps: seq<ChainStep>, store: map<Id, Sequence>, a: Address, k: nat)
    requires OneLevelChain(steps, store) && IsLeaf(steps, store, a)
    requires TargetsExist(ProgramOf(Expand(steps, store, 0, "", 0).value))
    requires var step := Placed(steps, store, a, 0, "", 0);
      step.kind == Goto && k < |step.alternatives| && !step.alternatives[k].fallThrough && step.alternatives[k].targetStep.Some?
    ensures Placed(steps, store, a, 0, "", 0).alternatives[k].targetStep.value
            in ByNumber(Expand(steps, store, 0, "", 0).value)
  {
    OneLevelIsDistinct(steps, store);
    TableAtLeaf(steps, store, a);
    hide OneLevelChain, Expand, Placed, IsLeaf, ByNumber;
  }

  lemma {:induction false} TopGotosNamePlain(steps: seq<ChainStep>, store: map<Id, Sequence>)
    requires OneLevelChain(steps, store) && TargetsInRange(steps)
    requires TargetsExist(ProgramOf(Expand(steps, store, 0, "", 0).value))
    ensures GotosNamePlain(steps)
  {
    InRangeIsPositive(steps, store);
    forall i, k | 0 <= i < |steps| && steps[i].kind == Goto && 0 <= k < |steps[i].alternatives|
      ensures var alt := steps[i].alternatives[k];
        alt.fallThrough || alt.targetStep.None? || HasPlain(steps, alt.targetStep.value)
    {
      var alt := steps[i].alternatives[k];
      if !alt.fallThrough && alt.targetStep.Some? {
        TargetInTable(steps, store, [i], k);
        TopLevelTargetIff(steps, store, alt.targetStep.value);
      }
    }
  }

  lemma {:induction false} InnerGotosNamePlain(steps: seq<ChainStep>, store: map<Id, Sequence>, i: nat)
    requires OneLevelChain(steps, store) && i < |steps| && TargetsInRange(InnerOf(store, steps[i]))
    requires TargetsExist(ProgramOf(Expand(steps, store, 0, "", 0).value))
    ensures GotosNamePlain(InnerOf(store, steps[i]))
  {
    var inner := InnerOf(store, steps[i]);
    forall j, k | 0 <= j < |inner| && inner[j].kind == Goto && 0 <= k < |inner[j].alternatives|
      ensures var alt := inner[j].alternatives[k];
        alt.fallThrough || alt.targetStep.None? || HasPlain(inner, alt.targetStep.value)
    {
      var alt := inner[j].alternatives[k];
      if !alt.fallThrough && alt.targetStep.Some? {
        InnerTarget(steps, store, i, j, k);
        TargetInTable(steps, store, [i, j], k);
        InnerNumberIsPlain(steps, store, i, alt.targetStep.value);
      }
    }
  }

  lemma {:induction false} InnerTarget(steps: seq<ChainStep>, store: map<Id, Sequence>, i: nat, j: nat, k: nat)
    requires NumbersInRange(steps, store) && OneLevel(steps, store) && i < |steps| && j < |InnerOf(store, steps[i])|
    requires var step := InnerOf(store, steps[i])[j];
      step.kind == Goto && k < |step.alternatives| && !step.alternatives[k].fallThrough && step.alternatives[k].targetStep.Some?
    ensures IsLeaf(steps, store, [i, j])
    ensures var (before, after) := (InnerOf(store, steps[i])[j], Placed(steps, store, [i, j], 0, "", 0));
      && after.kind == Goto && k < |after.alternatives| && !after.alternatives[k].fallThrough
      && after.alternatives[k].targetStep == Some(1000 * steps[i].number + before.alternatives[k].targetStep.value)
  {
    CalledInRange(steps, store, i);
    assert [i, j][1..] == [j];
    assert BlockNumber(steps, store, i, 0) == steps[i].number;
  }

  /** A number of the block of call `i` belongs to a plain step of the called sequence. */
  lemma {:induction false} InnerNumberIsPlain(steps: seq<ChainStep>, store: map<Id, Sequence>, i: nat, t: int)
    requires OneLevelChain(steps, store) && i < |steps| && 1 <= t <= 999
    requires 1000 * steps[i].number + t in ByNumber(Expand(steps, store, 0, "", 0).value)
    ensures HasPlain(InnerOf(store, steps[i]), t)
  {
    var b := LeafOfNumber(steps, store, 1000 * steps[i].number + t);
    OwnInRange(steps, store, b);
    PlacedNumber(steps, store, b, 0, "", 0);
    CalledInRange(steps, store, i);
    hide Expand, NumbersInRange, Placed, ByNumber, IsLeaf, CallOf, OwnNumber;
    LeafOfBlock(steps, store, b, i, t);
  }

  lemma {:induction false} LeafOfBlock(steps: seq<ChainStep>, store: map<Id, Sequence>, b: Address, i: nat, t: int)
    requires IsLeaf(steps, store, b) && OneLevel(steps, store) && DistinctNumbers(steps) && i < |steps|
    requires |b| > 1 && CallOf(steps, store, b) == steps[i].number && OwnNumber(steps, store, b) == t
    ensures HasPlain(InnerOf(store, steps[i]), t)
  {
    assert |b[1..]| == 1;
    assert b[0] == i;
    var inner := InnerOf(store, steps[i]);
    assert b[1..][0] < |inner| && inner[b[1..][0]].number == t;
  }

  // ---- the order of the run ----

  /** `n` is the number of a step inlined by some call. */
  ghost predicate IsInlined(steps: seq<ChainStep>, store: map<Id, Sequence>, n: int) {
    exists a: Address :: IsLeaf(steps, store, a) && |a| > 1
                         && LeafNumber(steps, store, a) == n
  }

  /** The block a number belongs to: 0 for the plain top-level steps, else the number of the
      innermost call. */
  function BlockOf(n: int): int {
    n / 1000
  }

  lemma {:induction false} NumberIsPlainOrInlined(steps: seq<ChainStep>, store: map<Id, Sequence>, n: int)
    requires Expand(steps, store, 0, "", 0).Ok? && NumbersInRange(steps, store)
    requires n in ByNumber(Expand(steps, store, 0, "", 0).value)
    ensures n > 0
    ensures n <= 999 ==> HasPlain(steps, n)
    ensures n > 999 ==> IsInlined(steps, store, n) && BlockOf(n) > 0
  {
    InRangeIsPositive(steps, store);
    var a := LeafOfNumber(steps, store, n);
    if n <= 999 {
      TopLevelTargetIff(steps, store, n);
    }
    OwnInRange(steps, store, a);
    PlacedNumber(steps, store, a, 0, "", 0);
    hide Expand, HasPlain, ByNumber, NumbersInRange, Placed, CallOf, OwnNumber;
  }

  ghost predicate SplitsAt(steps: seq<ChainStep>, store: map<Id, Sequence>, order: seq<int>, m: nat) {
    && m <= |order|
    && (forall i :: 0 <= i < m ==> HasPlain(steps, order[i]) && BlockOf(order[i]) == 0)
    && (forall i :: m <= i < |order| ==> IsInlined(steps, store, order[i]) && BlockOf(order[i]) > 0)
  }

  lemma {:induction false} FirstAbove(order: seq<int>) returns (m: nat)
    requires Increasing(order)
    ensures m <= |order| && (forall i :: 0 <= i < m ==> order[i] <= 999) && (forall i :: m <= i < |order| ==> order[i] > 999)
  {
    m := 0;
    while m < |order| && order[m] <= 999
      invariant m <= |order| && forall i :: 0 <= i < m ==> order[i] <= 999
    {
      m := m + 1;
    }
  }

  /** The order of the run, at any nesting: the plain top-level steps, then the inlined ones, one
      contiguous block for each number of an innermost call, rising by own number within it. */
  lemma {:induction false} RunOrderShape(steps: seq<ChainStep>, store: map<Id, Sequence>)
    requires Expand(steps, store, 0, "", 0).Ok? && Wellformed(steps) && NumbersInRange(steps, store)
    ensures var order := ProgramOf(Expand(steps, store, 0, "", 0).value).order;
      && (exists m: nat :: SplitsAt(steps, store, order, m))
      && (forall i, j :: 0 <= i < j < |order| ==>
          BlockOf(order[i]) <= BlockOf(order[j]) && (BlockOf(order[i]) == BlockOf(order[j]) ==> order[i] % 1000 < order[j] % 1000))
  {
    var flat := Expand(steps, store, 0, "", 0).value;
    ExpandedIsWellformed(steps, store, 0, "", 0);
    ProgramIsValid(flat);
    var p := ProgramOf(flat);
    var order := p.order;
    hide Expand, SortedNumbers, NumbersInRange;
    forall i | 0 <= i < |order|
      ensures order[i] > 0 && (order[i] <= 999 ==> HasPlain(steps, order[i]))
      ensures order[i] > 999 ==> IsInlined(steps, store, order[i]) && BlockOf(order[i]) > 0
    {
      assert order[i] in p.order;
      NumberIsPlainOrInlined(steps, store, order[i]);
    }
    hide HasPlain, IsInlined, ByNumber;
    var m := FirstAbove(order);
    assert SplitsAt(steps, store, order, m);
  }

  // ---- a goto that names a call ----

  const JUMP := ChainStep(1, "", "jump", Goto, 100, [NO_FIELDS.(targetStep := Some(2))])
  const CALL := ChainStep(2, "", "call", SequenceCall, 100, [NO_FIELDS.(sequenceId := "c")])

  lemma {:induction false} LostFlat()
    ensures Expand([JUMP, CALL], NESTED, 0, "", 0) == Ok([JUMP, Relocated(Load(LEAF), 2000, "call")])
  {
    var steps := [JUMP, CALL];
    ExpandSingle(JUMP, NESTED, 0, "", 0);
    assert Expand([JUMP], NESTED, 0, "", 0) == Ok([JUMP]);
    assert LoadAll(NESTED["c"].steps) == [Load(LEAF)] && Loadable(LEAF);
    ExpandSingle(Load(LEAF), NESTED, 2000, "call", 1);
    assert ExpandOne(CALL, NESTED, 0, "", 1, 0) == Ok([Relocated(Load(LEAF), 2000, "call")]);
    assert steps[..1] == [JUMP] && Expand(steps[..1], NESTED, 0, "", 0) == Ok([JUMP]);
    assert [JUMP] + [Relocated(Load(LEAF), 2000, "call")] == [JUMP, Relocated(Load(LEAF), 2000, "call")];
  }

  lemma {:induction false} TableOfTwo(a: ChainStep, b: ChainStep)
    requires a.number < b.number
    ensures ProgramOf([a, b]) == Program(map[a.number := a, b.number := b], [a.number, b.number])
  {
    var flat := [a, b];
    assert flat[..1] == [a] && [a][..0] == [];
    assert SortedNumbers([a]) == [a.number] && ByNumber([a]) == map[a.number := a];
    assert [a.number][1..] == [] && Insert([a.number], b.number) == [a.number, b.number];
    assert ByNumber(flat) == map[a.number := a, b.number := b];
  }

  lemma {:induction false} JumpIntoNothing(p: Program, input: string, env: nat -> Choice)
    requires Valid(p) && p.order == [1, 2001] && 1 in p.steps && p.steps[1] == JUMP && 2 !in p.steps
    ensures Run(p, input, env, 2).status == MissingTarget(2)
  {
    RunNext(p, input, env, 0);
    RunNext(p, input, env, 1);
  }

  /** Such chains exist: the checks on a saved sequence accept a goto to any of its numbers, calls
      included, and this one always ends on a missing step. */
  lemma {:induction false} GotoToCallIsLost(input: string, env: nat -> Choice)
    ensures Expand([JUMP, CALL], NESTED, 0, "", 0).Ok?
    ensures var p := ProgramOf(Expand([JUMP, CALL], NESTED, 0, "", 0).value);
      Valid(p) && Run(p, input, env, 2).status == MissingTarget(2)
  {
    LostFlat();
    var last := Relocated(Load(LEAF), 2000, "call");
    assert last.number == 2001 && last.visitCap >= 1 && last.alternatives != [];
    TableOfTwo(JUMP, last);
    ProgramIsValid([JUMP, last]);
    hide Expand, ProgramOf, Relocated, Load;
    JumpIntoNothing(ProgramOf([JUMP, last]), input, env);
  }

  // ---- the whole run ----

  lemma {:induction false} ExpandedIsWellformed(steps: seq<ChainStep>, store: map<Id, Sequence>, offset: int,
                                                prefix: string, depth: nat)
    requires Wellformed(steps)
    ensures var r := Expand(steps, store, offset, prefix, depth); r.Ok? ==> Wellformed(r.value)
    decreases Budget(depth), |steps|
  {
    if depth <= MAX_DEPTH && steps != [] {
      var n := |steps| - 1;
      ExpandedIsWellformed(steps[..n], store, offset, prefix, depth);
      var front := Expand(steps[..n], store, offset, prefix, depth);
      if front.Ok? {
        var one := ExpandOne(steps[n], store, offset, prefix, |front.value|, depth);
        if one.Ok? && steps[n].kind == SequenceCall {
          ExpandedIsWellformed(LoadAll(store[Target(steps[n])].steps), store,
                               CallNumber(steps[n], |front.value|) * 1000, Titled(prefix, steps[n].name), depth + 1);
        }
        assert one.Ok? ==> Wellformed(one.value);
      }
    }
  }

  /** What the store's acyclicity buys a run: with at most 20 stored sequences and no goto to a
      call, the expansion fails only on a missing or invalid sequence, and otherwise the run
      ends within its bound, finished or for one of the reasons that are the chain's own doing,
      never on a step that does not exist. */
  lemma {:induction false} WholeRunIsSafe(steps: seq<ChainStep>, store: map<Id, Sequence>, input: string, env: nat -> Choice, k: nat)
    requires Wellformed(steps) && Acyclic(StoreGraph(store)) && |store| <= MAX_DEPTH
    requires AllNamePlain(steps, store)
    ensures var r := Expand(steps, store, 0, "", 0);
      && r != Err(DepthExceeded)
      && (r.Ok? ==>
          var p := ProgramOf(r.value);
          && Valid(p)
          && !Run(p, input, env, k).status.MissingTarget?
          && (k > RunBound(p) ==> !Run(p, input, env, k).status.Running?))
  {
    AcyclicStoreNeverTooDeep(steps, store, 0, "");
    var r := Expand(steps, store, 0, "", 0);
    if r.Ok? {
      ExpandedIsWellformed(steps, store, 0, "", 0);
      ProgramIsValid(r.value);
      GotosFindSteps(steps, store);
      var p := ProgramOf(r.value);
      NoMissingTarget(p, input, env, k);
      if k > RunBound(p) {
        RunEnds(p, input, env, k);
      }
    }
  }
}
