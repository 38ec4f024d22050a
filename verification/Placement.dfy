/** Where the flattened steps come from and where they end up: the expansion is the in-order
    list of the leaves of the call tree, and its numbers say which call each came from. */
module Placement {
  import opened Prelude
  import opened Digraph
  import opened ChainModels
  import opened Expansion

  /** Position of a step in the call tree: an index into the top-level list, then one into the
      list of each sequence called on the way. */
  type Address = seq<nat>

  function InnerOf(store: map<Id, Sequence>, step: ChainStep): seq<ChainStep> {
    if step.kind == SequenceCall && Target(step) in store then LoadAll(store[Target(step)].steps) else []
  }

  ghost predicate IsLeaf(steps: seq<ChainStep>, store: map<Id, Sequence>, a: Address)
    decreases |a|
  {
    && |a| > 0 && a[0] < |steps|
    && if |a| == 1 then steps[a[0]].kind != SequenceCall
       else steps[a[0]].kind == SequenceCall && IsLeaf(InnerOf(store, steps[a[0]]), store, a[1..])
  }

  ghost predicate LexLess(a: Address, b: Address)
    decreases |a|
  {
    |a| > 0 && |b| > 0 && (a[0] < b[0] || (a[0] == b[0] && LexLess(a[1..], b[1..])))
  }

  function Under(i: nat, addresses: seq<Address>): (r: seq<Address>)
    ensures |r| == |addresses|
  {
    seq(|addresses|, k requires 0 <= k < |addresses| => [i] + addresses[k])
  }

  /** The leaves in the order in which a depth-first reading meets them. */
  function Leaves(steps: seq<ChainStep>, store: map<Id, Sequence>, depth: nat): seq<Address>
    decreases Budget(depth), |steps|
  {
    if depth > MAX_DEPTH || steps == [] then []
    else
      var n := |steps| - 1;
      Leaves(steps[..n], store, depth)
      + (if steps[n].kind != SequenceCall then [[n]] else Under(n, Leaves(InnerOf(store, steps[n]), store, depth + 1)))
  }

  /** The number a call gives to its block: its own, or its place among the leaves when it has
      none. */
  function BlockNumber(steps: seq<ChainStep>, store: map<Id, Sequence>, i: nat, depth: nat): int
    requires i < |steps|
  {
    CallNumber(steps[i], |Leaves(steps[..i], store, depth)|)
  }

  /** The step at a leaf as it must come out: renamed along the path of calls, renumbered by
      the innermost call. */
  ghost function Placed(steps: seq<ChainStep>, store: map<Id, Sequence>, a: Address, offset: int, prefix: string,
                        depth: nat): ChainStep
    requires IsLeaf(steps, store, a)
    decreases |a|
  {
    if |a| == 1 then Relocated(steps[a[0]], offset, prefix)
    else Placed(InnerOf(store, steps[a[0]]), store, a[1..], BlockNumber(steps, store, a[0], depth) * 1000,
                Titled(prefix, steps[a[0]].name), depth + 1)
  }

  lemma {:induction false} LeafOfFront(steps: seq<ChainStep>, store: map<Id, Sequence>, a: Address, n: nat)
    requires n <= |steps| && |a| > 0 && a[0] < n
    ensures IsLeaf(steps[..n], store, a) <==> IsLeaf(steps, store, a)
    ensures forall offset, prefix, depth: nat :: IsLeaf(steps, store, a) ==>
      Placed(steps[..n], store, a, offset, prefix, depth) == Placed(steps, store, a, offset, prefix, depth)
  {
    assert steps[..n][..a[0]] == steps[..a[0]];
  }

  lemma {:induction false} LeafUnderCall(steps: seq<ChainStep>, store: map<Id, Sequence>, n: nat, inner: Address)
    requires n < |steps| && steps[n].kind == SequenceCall && IsLeaf(InnerOf(store, steps[n]), store, inner)
    ensures IsLeaf(steps, store, [n] + inner)
    ensures forall offset, prefix, depth: nat ::
      Placed(steps, store, [n] + inner, offset, prefix, depth)
      == Placed(InnerOf(store, steps[n]), store, inner, BlockNumber(steps, store, n, depth) * 1000,
                Titled(prefix, steps[n].name), depth + 1)
  {
    assert ([n] + inner)[1..] == inner;
  }

  /** Every flattened step is the placed step of the leaf at the same position. */
  lemma {:induction false} ExpandedArePlaced(steps: seq<ChainStep>, store: map<Id, Sequence>, offset: int,
                                             prefix: string, depth: nat)
    requires Expand(steps, store, offset, prefix, depth).Ok?
    ensures var r := Expand(steps, store, offset, prefix, depth).value;
      var leaves := Leaves(steps, store, depth);
      && |r| == |leaves|
      && forall k :: 0 <= k < |r| ==>
          IsLeaf(steps, store, leaves[k]) && r[k] == Placed(steps, store, leaves[k], offset, prefix, depth)
    decreases Budget(depth), |steps|
  {
    if steps != [] {
      var n := |steps| - 1;
      ExpandedArePlaced(steps[..n], store, offset, prefix, depth);
      var front := Expand(steps[..n], store, offset, prefix, depth).value;
      var leaves := Leaves(steps[..n], store, depth);
      forall k | 0 <= k < |front|
        ensures IsLeaf(steps, store, leaves[k]) && front[k] == Placed(steps, store, leaves[k], offset, prefix, depth)
      {
        LeafOfFront(steps, store, leaves[k], n);
      }
      if steps[n].kind == SequenceCall {
        var block := BlockNumber(steps, store, n, depth);
        assert block == CallNumber(steps[n], |front|);
        var title := Titled(prefix, steps[n].name);
        var called := InnerOf(store, steps[n]);
        ExpandedArePlaced(called, store, block * 1000, title, depth + 1);
        var inner := Expand(called, store, block * 1000, title, depth + 1).value;
        var innerLeaves := Leaves(called, store, depth + 1);
        forall k | 0 <= k < |inner|
          ensures IsLeaf(steps, store, [n] + innerLeaves[k])
          ensures inner[k] == Placed(steps, store, [n] + innerLeaves[k], offset, prefix, depth)
        {
          LeafUnderCall(steps, store, n, innerLeaves[k]);
        }
      } else {
        assert IsLeaf(steps, store, [n]);
        assert Placed(steps, store, [n], offset, prefix, depth) == Relocated(steps[n], offset, prefix);
      }
    }
  }

  /** No leaf is missing. */
  lemma {:induction false} AllLeavesListed(steps: seq<ChainStep>, store: map<Id, Sequence>, offset: int,
                                           prefix: string, depth: nat, a: Address)
    requires Expand(steps, store, offset, prefix, depth).Ok? && IsLeaf(steps, store, a)
    ensures a in Leaves(steps, store, depth)
    decreases Budget(depth), |steps|
  {
    var n := |steps| - 1;
    if a[0] < n {
      LeafOfFront(steps, store, a, n);
      AllLeavesListed(steps[..n], store, offset, prefix, depth, a);
    } else if |a| == 1 {
      assert a == [n];
    } else {
      var front := Expand(steps[..n], store, offset, prefix, depth).value;
      var inner := Leaves(InnerOf(store, steps[n]), store, depth + 1);
      AllLeavesListed(InnerOf(store, steps[n]), store, CallNumber(steps[n], |front|) * 1000,
                      Titled(prefix, steps[n].name), depth + 1, a[1..]);
      var k :| 0 <= k < |inner| && inner[k] == a[1..];
      assert Under(n, inner)[k] == a;
    }
  }

  lemma {:induction false} LexUnder(n: nat, a: Address, b: Address)
    ensures LexLess([n] + a, [n] + b) <==> LexLess(a, b)
  {
    assert ([n] + a)[1..] == a && ([n] + b)[1..] == b;
  }

  ghost predicate LexSorted(leaves: seq<Address>) {
    forall j, k :: 0 <= j < k < |leaves| ==> LexLess(leaves[j], leaves[k])
  }

  lemma {:induction false} SortedAppend(front: seq<Address>, back: seq<Address>, n: nat)
    requires LexSorted(front) && LexSorted(back)
    requires forall k :: 0 <= k < |front| ==> |front[k]| > 0 && front[k][0] < n
    requires forall k :: 0 <= k < |back| ==> |back[k]| > 0 && back[k][0] == n
    ensures LexSorted(front + back)
  {
  }

  /** The leaves are listed in order, each once. */
  lemma {:induction false} LeavesSorted(steps: seq<ChainStep>, store: map<Id, Sequence>, depth: nat)
    ensures var leaves := Leaves(steps, store, depth);
      && (forall k :: 0 <= k < |leaves| ==> |leaves[k]| > 0 && leaves[k][0] < |steps|)
      && LexSorted(leaves)
    decreases Budget(depth), |steps|
  {
    if depth <= MAX_DEPTH && steps != [] {
      var n := |steps| - 1;
      LeavesSorted(steps[..n], store, depth);
      if steps[n].kind == SequenceCall {
        var called := InnerOf(store, steps[n]);
        LeavesSorted(called, store, depth + 1);
        var inner := Leaves(called, store, depth + 1);
        var under := Under(n, inner);
        forall j, k | 0 <= j < k < |inner|
          ensures LexLess(under[j], under[k])
        {
          LexUnder(n, inner[j], inner[k]);
        }
        assert forall k :: 0 <= k < |under| ==> under[k][0] == n;
        SortedAppend(Leaves(steps[..n], store, depth), under, n);
      } else {
        SortedAppend(Leaves(steps[..n], store, depth), [[n]], n);
      }
    }
  }

  lemma {:induction false} LexIrreflexive(a: Address)
    ensures !LexLess(a, a)
    decreases |a|
  {
    if |a| > 0 {
      LexIrreflexive(a[1..]);
    }
  }

  // ---- from the stored step to the flattened one ----

  function FirstOf(alts: seq<Alternative>): Id {
    if alts == [] then "" else alts[0].sequenceId
  }

  /** What a stored call inlines: the first alternative, or the shorthand when none is stored. */
  function FirstCalled(raw: RawStep): Id {
    FirstOf(if raw.alternatives != [] then raw.alternatives else [raw.shorthand])
  }

  /** `b` leads, through calls, to a plain stored step under the sequence `id`. */
  ghost predicate RawLeaf(store: map<Id, Sequence>, id: Id, b: Address)
    decreases |b|
  {
    && |b| > 0 && id in store && b[0] < |store[id].steps|
    && var raw := store[id].steps[b[0]];
       if |b| == 1 then raw.kind != SequenceCall else raw.kind == SequenceCall && RawLeaf(store, FirstCalled(raw), b[1..])
  }

  ghost function RawStepAt(store: map<Id, Sequence>, id: Id, b: Address): RawStep
    requires RawLeaf(store, id, b)
    decreases |b|
  {
    var raw := store[id].steps[b[0]];
    if |b| == 1 then raw else RawStepAt(store, FirstCalled(raw), b[1..])
  }

  /** The names of the calls on the way, then the step's own. */
  ghost function RawNames(store: map<Id, Sequence>, id: Id, b: Address): seq<string>
    requires RawLeaf(store, id, b)
    decreases |b|
  {
    var raw := store[id].steps[b[0]];
    [raw.name] + (if |b| == 1 then [] else RawNames(store, FirstCalled(raw), b[1..]))
  }

  /** The names joined by arrows; empty ones at the front do not count. */
  function Joined(names: seq<string>): string {
    if names == [] then ""
    else if |names| == 1 then names[0]
    else if names[0] == "" then Joined(names[1..])
    else names[0] + Arrows(names[1..])
  }

  function Arrows(names: seq<string>): string {
    if names == [] then "" else " > " + names[0] + Arrows(names[1..])
  }

  /** `step` is the stored step `raw`, all its alternatives included, but for the number and the
      name; the targets of a goto move with the number. */
  ghost predicate CopyOf(raw: RawStep, step: ChainStep) {
    && step.id == raw.id && step.kind == raw.kind && step.visitCap == raw.visitCap
    && |step.alternatives| == (if raw.alternatives == [] then 1 else |raw.alternatives|)
    && forall j :: 0 <= j < |step.alternatives| ==>
         var alt := if raw.alternatives == [] then raw.shorthand else raw.alternatives[j];
         step.alternatives[j] ==
           if raw.kind == Goto && alt.targetStep.Some?
             then alt.(targetStep := Some(alt.targetStep.value + step.number - raw.number)) else alt
  }

  lemma {:induction false} LoadedCall(raw: RawStep)
    ensures Load(raw).kind == raw.kind && Target(Load(raw)) == FirstCalled(raw) && Load(raw).name == raw.name
  {
  }

  /** The leaves below a stored sequence, read off the store itself. */
  lemma {:induction false} RawLeafIff(store: map<Id, Sequence>, id: Id, b: Address)
    requires id in store
    ensures IsLeaf(LoadAll(store[id].steps), store, b) <==> RawLeaf(store, id, b)
    decreases |b|
  {
    if |b| > 0 && b[0] < |store[id].steps| {
      var raw := store[id].steps[b[0]];
      LoadedCall(raw);
      if |b| > 1 && raw.kind == SequenceCall {
        if FirstCalled(raw) in store {
          RawLeafIff(store, FirstCalled(raw), b[1..]);
        }
      }
    }
  }

  lemma {:induction false} CopiedStep(raw: RawStep, offset: int, prefix: string)
    ensures CopyOf(raw, Relocated(Load(raw), offset, prefix))
    ensures Relocated(Load(raw), offset, prefix).name == Titled(prefix, raw.name)
  {
  }

  lemma {:induction false} RawPlaced(store: map<Id, Sequence>, id: Id, b: Address, offset: int, prefix: string, depth: nat)
    requires id in store && RawLeaf(store, id, b) && IsLeaf(LoadAll(store[id].steps), store, b)
    ensures var step := Placed(LoadAll(store[id].steps), store, b, offset, prefix, depth);
      && CopyOf(RawStepAt(store, id, b), step)
      && step.name == Joined([prefix] + RawNames(store, id, b))
    decreases |b|
  {
    var raw := store[id].steps[b[0]];
    var steps := LoadAll(store[id].steps);
    LoadedCall(raw);
    TitledJoins(prefix, raw.name, RawNames(store, id, b)[1..]);
    assert RawNames(store, id, b) == [raw.name] + RawNames(store, id, b)[1..];
    if |b| == 1 {
      CopiedStep(raw, offset, prefix);
      assert steps[b[0]] == Load(raw);
      assert [prefix] + RawNames(store, id, b) == [prefix, raw.name];
    } else {
      var called := FirstCalled(raw);
      RawLeafIff(store, called, b[1..]);
      RawPlaced(store, called, b[1..], BlockNumber(steps, store, b[0], depth) * 1000, Titled(prefix, raw.name), depth + 1);
      assert RawNames(store, id, b)[1..] == RawNames(store, called, b[1..]);
      hide CopyOf, Load;
    }
  }

  lemma {:induction false} TitledJoins(prefix: string, name: string, rest: seq<string>)
    ensures Joined([prefix] + ([name] + rest)) == Joined([Titled(prefix, name)] + rest)
  {
    var names, fewer := [prefix] + ([name] + rest), [Titled(prefix, name)] + rest;
    assert names[1..] == [name] + rest && fewer[1..] == rest && names[1..][1..] == rest;
    if prefix != "" {
      assert prefix + (" > " + name + Arrows(rest)) == (prefix + " > " + name) + Arrows(rest);
      if rest == [] {
        assert Arrows(rest) == "";
      }
    }
  }

  /** A leaf in the terms of the store: a plain top-level step, or a plain stored step reached
      through first alternatives. */
  ghost predicate StoredLeaf(steps: seq<ChainStep>, store: map<Id, Sequence>, a: Address) {
    && |a| > 0 && a[0] < |steps|
    && if |a| == 1 then steps[a[0]].kind != SequenceCall
       else
         && steps[a[0]].kind == SequenceCall
         && RawLeaf(store, FirstOf(steps[a[0]].alternatives), a[1..])
  }

  lemma {:induction false} StoredLeafIff(steps: seq<ChainStep>, store: map<Id, Sequence>, a: Address)
    ensures IsLeaf(steps, store, a) <==> StoredLeaf(steps, store, a)
  {
    if |a| > 1 && a[0] < |steps| && steps[a[0]].kind == SequenceCall && Target(steps[a[0]]) in store {
      RawLeafIff(store, Target(steps[a[0]]), a[1..]);
    }
  }

  /** What the leaf `a` must come out as, in the terms of the store. */
  ghost predicate ComesOutAs(steps: seq<ChainStep>, store: map<Id, Sequence>, a: Address, step: ChainStep)
    requires StoredLeaf(steps, store, a)
  {
    if |a| == 1 then step == steps[a[0]]
    else
      var id := FirstOf(steps[a[0]].alternatives);
      && CopyOf(RawStepAt(store, id, a[1..]), step)
      && step.name == Joined([steps[a[0]].name] + RawNames(store, id, a[1..]))
  }

  lemma {:induction false} OnePlaced(steps: seq<ChainStep>, store: map<Id, Sequence>, a: Address)
    requires IsLeaf(steps, store, a)
    ensures StoredLeaf(steps, store, a) && ComesOutAs(steps, store, a, Placed(steps, store, a, 0, "", 0))
  {
    StoredLeafIff(steps, store, a);
    if |a| > 1 {
      var id := FirstOf(steps[a[0]].alternatives);
      RawLeafIff(store, id, a[1..]);
      RawPlaced(store, id, a[1..], BlockNumber(steps, store, a[0], 0) * 1000, steps[a[0]].name, 1);
      hide CopyOf;
    }
  }

  /** What each flattened step is a copy of. A plain top-level step comes out unchanged; a step
      of a called sequence with its id, kind, visit cap and all its alternatives, under the
      names of the calls that lead to it. Every such step comes out, in depth-first order. */
  lemma {:induction false} FlattenedAreStored(steps: seq<ChainStep>, store: map<Id, Sequence>)
    requires Expand(steps, store, 0, "", 0).Ok?
    ensures var (flat, leaves) := (Expand(steps, store, 0, "", 0).value, Leaves(steps, store, 0));
      && |flat| == |leaves| && LexSorted(leaves)
      && (forall a: Address :: a in leaves <==> StoredLeaf(steps, store, a))
      && forall k :: 0 <= k < |flat| ==>
           var a := leaves[k];
           StoredLeaf(steps, store, a) && ComesOutAs(steps, store, a, flat[k])
  {
    var flat, leaves := Expand(steps, store, 0, "", 0).value, Leaves(steps, store, 0);
    ExpandedArePlaced(steps, store, 0, "", 0);
    LeavesSorted(steps, store, 0);
    forall a: Address
      ensures a in leaves <==> StoredLeaf(steps, store, a)
    {
      StoredLeafIff(steps, store, a);
      if IsLeaf(steps, store, a) {
        AllLeavesListed(steps, store, 0, "", 0, a);
      }
    }
    forall k | 0 <= k < |flat|
      ensures var a := leaves[k];
        StoredLeaf(steps, store, a) && ComesOutAs(steps, store, a, flat[k])
    {
      hide Expand, Leaves, LexSorted;
      OnePlaced(steps, store, leaves[k]);
    }
  }
}
