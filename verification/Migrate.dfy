/** The re-slug migration: new ids for documents that still carry a UUID, and the references
    that follow them. */
module Migrate {
  import opened Prelude
  import opened Digraph
  import opened ChainModels
  import opened Envelope
  import opened Ordering
  import Tokens

  // ---- which ids are replaced, and what by ----

  /** The pattern of section 4 of RFC 9562 in either case; like the source's `$`, it lets a
      final newline pass. */
  predicate IsUuid(id: string) {
    var s := WithoutFinalNewline(id);
    && |s| == 36
    && s[8] == s[13] == s[18] == s[23] == '-'
    && (forall i :: 0 <= i < 36 && i != 8 && i != 13 && i != 18 && i != 23 ==> IsHexDigit(s[i]))
  }

  function WithoutFinalNewline(id: string): string {
    if id != "" && id[|id| - 1] == '\n' then id[..|id| - 1] else id
  }

  predicate AllHex(s: string) {
    forall i :: 0 <= i < |s| ==> IsHexDigit(s[i])
  }

  /** Five groups of 8, 4, 4, 4 and 12 hexadecimal digits joined by dashes. */
  ghost predicate IsGrouped(id: string, a: string, b: string, c: string, d: string, e: string) {
    && |a| == 8 && |b| == 4 && |c| == 4 && |d| == 4 && |e| == 12
    && AllHex(a) && AllHex(b) && AllHex(c) && AllHex(d) && AllHex(e)
    && (id == a + "-" + b + "-" + c + "-" + d + "-" + e || id == a + "-" + b + "-" + c + "-" + d + "-" + e + "\n")
  }

  /** The ids the pattern takes are those of that form. */
  lemma {:induction false} UuidIffGrouped(id: string)
    ensures IsUuid(id) <==> exists a, b, c, d, e :: IsGrouped(id, a, b, c, d, e)
  {
    if IsUuid(id) {
      var s := WithoutFinalNewline(id);
      UuidSplits(s);
      assert id == s || id == s + "\n";
      assert IsGrouped(id, s[..8], s[9..13], s[14..18], s[19..23], s[24..]);
    }
    if a, b, c, d, e :| IsGrouped(id, a, b, c, d, e) {
      GroupedIsUuid(id, a, b, c, d, e);
    }
  }

  lemma {:induction false} UuidSplits(s: string)
    requires |s| == 36 && s[8] == s[13] == s[18] == s[23] == '-'
    ensures s == s[..8] + "-" + s[9..13] + "-" + s[14..18] + "-" + s[19..23] + "-" + s[24..]
  {
  }

  lemma {:induction false} GroupedIsUuid(id: string, a: string, b: string, c: string, d: string, e: string)
    requires IsGrouped(id, a, b, c, d, e)
    ensures IsUuid(id)
  {
    var s := a + "-" + b + "-" + c + "-" + d + "-" + e;
    assert s[..8] == a && s[9..13] == b && s[14..18] == c && s[19..23] == d && s[24..] == e;
    assert s[35] == e[11] && IsHexDigit(e[11]);
    assert WithoutFinalNewline(id) == s;
    forall i | 0 <= i < 36 && i != 8 && i != 13 && i != 18 && i != 23
      ensures IsHexDigit(s[i])
    {
      assert i < 8 ==> s[i] == a[i];
      assert 8 < i < 13 ==> s[i] == b[i - 9];
      assert 13 < i < 18 ==> s[i] == c[i - 14];
      assert 18 < i < 23 ==> s[i] == d[i - 19];
      assert 23 < i ==> s[i] == e[i - 24];
    }
  }

  /** What the plan looks at in a document. */
  datatype Meta = Meta(id: Id, name: string, createdAt: string)

  function SlugBase(name: string, fallback: string): string {
    if Tokens.Strip(name) != "" then Slugify(name) else fallback
  }

  lemma {:induction false} SlugHasNoDash(s: string)
    requires IsSlug(s)
    ensures '-' !in s
  {
  }

  /** No id the plan assigns looks like a UUID. */
  lemma {:induction false} FreshIdIsNoUuid(base: string, taken: set<string>)
    requires '-' !in base
    ensures !IsUuid(FreshId(base, taken))
  {
    var id := FreshId(base, taken);
    if base in taken {
      var n :| n >= 2 && id == Numbered(base, "_", "", n) && TakenBelow(base, "_", "", taken, n);
      assert '-' !in "_";
    }
    assert '-' !in id;
    assert forall c :: c in WithoutFinalNewline(id) ==> c in id;
  }

  // ---- oldest first ----

  predicate Older(a: Meta, b: Meta) {
    StringLess(a.createdAt, b.createdAt) || (a.createdAt == b.createdAt && StringLess(a.id, b.id))
  }

  /** "Not younger" is transitive. */
  lemma {:induction false} AgeOrder(a: Meta, b: Meta, c: Meta)
    ensures !Older(b, a) && !Older(c, b) ==> !Older(c, a)
    ensures Older(a, b) ==> !Older(b, a)
  {
    StringOrder(a.createdAt, b.createdAt, c.createdAt);
    StringOrder(c.createdAt, a.createdAt, b.createdAt);
    StringOrder(b.createdAt, c.createdAt, a.createdAt);
    StringOrder(a.id, b.id, c.id);
    StringOrder(c.id, a.id, b.id);
    StringOrder(b.id, c.id, a.id);
    StringOrder(b.createdAt, a.createdAt, c.createdAt);
    StringOrder(b.id, a.id, c.id);
    StringOrder(c.createdAt, b.createdAt, a.createdAt);
    StringOrder(c.id, b.id, a.id);
  }

  ghost predicate OldestFirst(docs: seq<Meta>, order: seq<nat>) {
    && (forall k :: 0 <= k < |order| ==> order[k] < |docs|)
    && (forall j, k :: 0 <= j < k < |order| ==> !Older(docs[order[k]], docs[order[j]]))
  }

  lemma {:induction false} InsertSorted(docs: seq<Meta>, order: seq<nat>, i: nat)
    requires i < |docs| && OldestFirst(docs, order)
    ensures OldestFirst(docs, InsertByAge(docs, order, i))
    ensures forall j: nat :: j in InsertByAge(docs, order, i) <==> j in order || j == i
  {
    hide Older;
    if order != [] {
      var front, last := order[..|order| - 1], order[|order| - 1];
      assert order == front + [last];
      if Older(docs[i], docs[last]) {
        InsertSorted(docs, front, i);
        var rest := InsertByAge(docs, front, i);
        AgeOrder(docs[i], docs[last], docs[last]);
        forall k | 0 <= k < |rest|
          ensures !Older(docs[last], docs[rest[k]])
        {
          assert rest[k] in rest;
          if rest[k] in front {
            var j :| 0 <= j < |front| && front[j] == rest[k];
            assert order[j] == front[j];
          }
        }
      } else {
        forall k | 0 <= k < |order|
          ensures !Older(docs[i], docs[order[k]])
        {
          AgeOrder(docs[order[k]], docs[last], docs[i]);
        }
      }
    }
  }

  /** Insertion of index `i` behind every index that is not younger: a stable sort. */
  function InsertByAge(docs: seq<Meta>, order: seq<nat>, i: nat): seq<nat>
    requires i < |docs| && forall k :: 0 <= k < |order| ==> order[k] < |docs|
  {
    if order == [] || !Older(docs[i], docs[order[|order| - 1]]) then order + [i]
    else InsertByAge(docs, order[..|order| - 1], i) + [order[|order| - 1]]
  }

  ghost predicate IsMigrating(docs: seq<Meta>, i: nat) {
    i < |docs| && IsUuid(docs[i].id)
  }

  /** Exactly the indices below `n` of documents with a UUID, each once, oldest first. */
  ghost predicate ListsMigrating(docs: seq<Meta>, n: nat, order: seq<nat>) {
    && Distinct(order) && OldestFirst(docs, order)
    && (forall i: nat :: i in order <==> i < n && IsMigrating(docs, i))
  }

  lemma {:induction false} InsertLists(docs: seq<Meta>, order: seq<nat>, i: nat)
    requires i < |docs| && forall k :: 0 <= k < |order| ==> order[k] < |docs|
    requires Distinct(order) && i !in order
    ensures Distinct(InsertByAge(docs, order, i))
    ensures forall j: nat :: j in InsertByAge(docs, order, i) <==> j in order || j == i
  {
    if order != [] && Older(docs[i], docs[order[|order| - 1]]) {
      var front, last := order[..|order| - 1], order[|order| - 1];
      InsertLists(docs, front, i);
      assert order == front + [last];
      var rest := InsertByAge(docs, front, i);
      assert forall k :: 0 <= k < |rest| ==> rest[k] in rest;
    }
  }

  method SortMigrating(docs: seq<Meta>) returns (order: seq<nat>)
    ensures ListsMigrating(docs, |docs|, order)
  {
    order := [];
    for i := 0 to |docs|
      invariant ListsMigrating(docs, i, order)
    {
      assert forall k :: 0 <= k < |order| ==> order[k] in order;
      if IsUuid(docs[i].id) {
        InsertLists(docs, order, i);
        InsertSorted(docs, order, i);
        order := InsertByAge(docs, order, i);
      }
    }
  }

  // ---- the plan of one type ----

  ghost function KeptIds(docs: seq<Meta>): set<Id> {
    set i | 0 <= i < |docs| && !IsUuid(docs[i].id) :: docs[i].id
  }

  /** Ids in use when the k-th document in order is renamed. */
  ghost function TakenBefore(docs: seq<Meta>, order: seq<nat>, ids: seq<Id>, k: nat): set<Id>
    requires |ids| == |docs| && k <= |order|
    requires forall j :: 0 <= j < |order| ==> order[j] < |docs|
  {
    KeptIds(docs) + (set j | 0 <= j < k :: ids[order[j]])
  }

  /** The result of a plan: documents with a real id keep it; the others are renamed in order,
      each to the fresh id for its slug given all ids in use at that point. */
  ghost predicate Planned(docs: seq<Meta>, fallback: string, order: seq<nat>, ids: seq<Id>, done: nat) {
    && |ids| == |docs| && done <= |order|
    && (forall j :: 0 <= j < |order| ==> order[j] < |docs|)
    && (forall i :: 0 <= i < |docs| && !IsUuid(docs[i].id) ==> ids[i] == docs[i].id)
    && (forall j :: done <= j < |order| ==> ids[order[j]] == docs[order[j]].id)
    && (forall k :: 0 <= k < done ==>
        ids[order[k]] == FreshId(SlugBase(docs[order[k]].name, fallback), TakenBefore(docs, order, ids, k)))
  }

  /** The renaming a plan reports after `done` documents; of several with the same old id the
      last counts. */
  ghost function RemapOf(docs: seq<Meta>, order: seq<nat>, ids: seq<Id>, done: nat): map<Id, Id>
    requires |ids| == |docs| && done <= |order| && forall j :: 0 <= j < |order| ==> order[j] < |docs|
  {
    if done == 0 then map[]
    else RemapOf(docs, order, ids, done - 1)[docs[order[done - 1]].id := ids[order[done - 1]]]
  }

  /** The loop invariant of the plan. */
  ghost predicate PlanState(docs: seq<Meta>, fallback: string, order: seq<nat>, done: nat,
                            ids: seq<Id>, taken: set<Id>, remap: map<Id, Id>)
  {
    && Planned(docs, fallback, order, ids, done)
    && taken == TakenBefore(docs, order, ids, done)
    && remap == RemapOf(docs, order, ids, done)
  }

  /** `_plan_type` without the text rewrite. */
  method PlanType(docs: seq<Meta>, fallback: string) returns (ids: seq<Id>, remap: map<Id, Id>)
    requires '-' !in fallback
    ensures exists order :: IsPlan(docs, fallback, order, ids, remap)
  {
    var sorted := SortMigrating(docs);
    ghost var order := sorted;
    ids := seq(|docs|, i requires 0 <= i < |docs| => docs[i].id);
    remap := map[];
    var taken := set i | 0 <= i < |docs| && !IsUuid(docs[i].id) :: docs[i].id;
    PlanStart(docs, fallback, order, ids, taken);
    hide PlanState, IsUuid, SlugBase, FreshId, ListsMigrating, Planned, RemapOf;
    for k := 0 to |sorted|
      invariant |ids| == |docs|
      invariant PlanState(docs, fallback, order, k, ids, taken, remap)
    {
      var i := sorted[k];
      var oldId := ids[i];
      var newId := UniqueId(SlugBase(docs[i].name, fallback), taken);
      PlanNext(docs, fallback, order, k, ids, taken, remap, newId);
      taken := taken + {newId};
      ids := ids[i := newId];
      if newId != oldId {
        remap := remap[oldId := newId];
      }
    }
    PlanDone(docs, fallback, order, ids, taken, remap);
    hide IsPlan;
  }

  lemma {:induction false} PlanStart(docs: seq<Meta>, fallback: string, order: seq<nat>, ids: seq<Id>, taken: set<Id>)
    requires ListsMigrating(docs, |docs|, order)
    requires |ids| == |docs| && forall i :: 0 <= i < |docs| ==> ids[i] == docs[i].id
    requires taken == set i | 0 <= i < |docs| && !IsUuid(docs[i].id) :: docs[i].id
    ensures PlanState(docs, fallback, order, 0, ids, taken, map[])
    ensures forall j :: 0 <= j < |order| ==> order[j] < |docs|
  {
    assert forall j :: 0 <= j < |order| ==> order[j] in order && order[j] < |docs|;
  }

  lemma {:induction false} PlanDone(docs: seq<Meta>, fallback: string, order: seq<nat>,
                                    ids: seq<Id>, taken: set<Id>, remap: map<Id, Id>)
    requires '-' !in fallback && ListsMigrating(docs, |docs|, order)
    requires PlanState(docs, fallback, order, |order|, ids, taken, remap)
    ensures IsPlan(docs, fallback, order, ids, remap)
  {
  }

  lemma {:induction false} BaseHasNoDash(name: string, fallback: string)
    requires '-' !in fallback
    ensures '-' !in SlugBase(name, fallback)
  {
    SlugifyIsSlug(name);
    SlugHasNoDash(Slugify(name));
  }

  /** Renaming one more document disturbs nothing planned before. */
  lemma {:induction false} PlanNext(docs: seq<Meta>, fallback: string, order: seq<nat>, k: nat,
                                    ids: seq<Id>, taken: set<Id>, remap: map<Id, Id>, newId: Id)
    requires ListsMigrating(docs, |docs|, order) && k < |order| && '-' !in fallback && order[k] < |docs|
    requires PlanState(docs, fallback, order, k, ids, taken, remap)
    requires newId == FreshId(SlugBase(docs[order[k]].name, fallback), taken)
    ensures |ids| == |docs| && newId != ids[order[k]]
    ensures PlanState(docs, fallback, order, k + 1, ids[order[k] := newId], taken + {newId}, remap[ids[order[k]] := newId])
  {
    var after := ids[order[k] := newId];
    assert order[k] in order;
    assert forall l :: 0 <= l < |order| && l != k ==> order[l] != order[k];
    OldIdIsReplaced(docs, fallback, order, ids, k);
    hide SlugBase, FreshId, IsUuid, TakenBefore, ListsMigrating, RemapOf, Planned;
    PlanGrows(docs, fallback, order, ids, k, after);
    OneMoreRenamed(docs, order, ids, k, after);
  }

  lemma {:induction false} PlanGrows(docs: seq<Meta>, fallback: string, order: seq<nat>, ids: seq<Id>, k: nat, after: seq<Id>)
    requires k < |order| && Planned(docs, fallback, order, ids, k) && |after| == |ids|
    requires forall i :: 0 <= i < |ids| && i != order[k] ==> after[i] == ids[i]
    requires after[order[k]] == FreshId(SlugBase(docs[order[k]].name, fallback), TakenBefore(docs, order, ids, k))
    requires forall l :: 0 <= l < |order| && l != k ==> order[l] != order[k]
    requires IsUuid(docs[order[k]].id)
    ensures Planned(docs, fallback, order, after, k + 1)
    ensures forall l :: 0 <= l < |order| ==> order[l] < |docs|
    ensures forall l :: 0 <= l < k ==> after[order[l]] == ids[order[l]]
  {
    hide SlugBase, FreshId, IsUuid, TakenBefore;
    forall j | 0 <= j <= k
      ensures TakenBefore(docs, order, after, j) == TakenBefore(docs, order, ids, j)
    {
      TakenStable(docs, order, ids, after, j);
    }
  }

  lemma {:induction false} OneMoreRenamed(docs: seq<Meta>, order: seq<nat>, ids: seq<Id>, k: nat, after: seq<Id>)
    requires |ids| == |after| == |docs| && k < |order| && forall l :: 0 <= l < |order| ==> order[l] < |docs|
    requires forall l :: 0 <= l < k ==> after[order[l]] == ids[order[l]]
    ensures TakenBefore(docs, order, after, k + 1) == TakenBefore(docs, order, ids, k) + {after[order[k]]}
    ensures RemapOf(docs, order, after, k + 1) == RemapOf(docs, order, ids, k)[docs[order[k]].id := after[order[k]]]
  {
    RemapStable(docs, order, ids, after, k);
    TakenStable(docs, order, ids, after, k);
    assert TakenBefore(docs, order, after, k + 1) == TakenBefore(docs, order, after, k) + {after[order[k]]} by {
      hide KeptIds, RemapOf;
    }
    hide TakenBefore;
  }

  lemma {:induction false} OldIdIsReplaced(docs: seq<Meta>, fallback: string, order: seq<nat>, ids: seq<Id>, k: nat)
    requires k < |order| && '-' !in fallback
    requires Planned(docs, fallback, order, ids, k) && IsUuid(docs[order[k]].id)
    ensures ids[order[k]] == docs[order[k]].id
    ensures FreshId(SlugBase(docs[order[k]].name, fallback), TakenBefore(docs, order, ids, k)) != docs[order[k]].id
  {
    BaseHasNoDash(docs[order[k]].name, fallback);
    FreshIdIsNoUuid(SlugBase(docs[order[k]].name, fallback), TakenBefore(docs, order, ids, k));
  }

  lemma {:induction false} TakenStable(docs: seq<Meta>, order: seq<nat>, ids: seq<Id>, after: seq<Id>, j: nat)
    requires |ids| == |after| == |docs| && j <= |order| && forall l :: 0 <= l < |order| ==> order[l] < |docs|
    requires forall l :: 0 <= l < j ==> after[order[l]] == ids[order[l]]
    ensures TakenBefore(docs, order, after, j) == TakenBefore(docs, order, ids, j)
  {
  }

  lemma {:induction false} RemapStable(docs: seq<Meta>, order: seq<nat>, ids: seq<Id>, after: seq<Id>, done: nat)
    requires |ids| == |after| == |docs| && done <= |order| && forall j :: 0 <= j < |order| ==> order[j] < |docs|
    requires forall l :: 0 <= l < done ==> after[order[l]] == ids[order[l]]
    ensures RemapOf(docs, order, after, done) == RemapOf(docs, order, ids, done)
  {
    if done > 0 {
      RemapStable(docs, order, ids, after, done - 1);
    }
  }

  // ---- what the plan guarantees ----

  /** The outcome of `PlanType`. */
  ghost predicate IsPlan(docs: seq<Meta>, fallback: string, order: seq<nat>, ids: seq<Id>, remap: map<Id, Id>) {
    && '-' !in fallback
    && ListsMigrating(docs, |docs|, order)
    && Planned(docs, fallback, order, ids, |order|)
    && remap == RemapOf(docs, order, ids, |order|)
  }

  ghost predicate KeptDistinct(docs: seq<Meta>) {
    forall i, j :: 0 <= i < j < |docs| && !IsUuid(docs[i].id) && !IsUuid(docs[j].id) ==> docs[i].id != docs[j].id
  }

  /** Position of a migrating document in the order. */
  lemma {:induction false} RankOf(docs: seq<Meta>, order: seq<nat>, i: nat) returns (k: nat)
    requires ListsMigrating(docs, |docs|, order) && IsMigrating(docs, i)
    ensures k < |order| && order[k] == i
  {
    assert i in order;
    k :| 0 <= k < |order| && order[k] == i;
  }

  lemma {:induction false} KeptStays(docs: seq<Meta>, fallback: string, order: seq<nat>, ids: seq<Id>, i: nat)
    requires ListsMigrating(docs, |docs|, order) && Planned(docs, fallback, order, ids, |order|)
    requires i < |docs| && !IsUuid(docs[i].id)
    ensures ids[i] == docs[i].id && ids[i] in KeptIds(docs)
  {
  }

  /** A renamed document gets an id no kept document has and no document renamed before it. */
  lemma {:induction false} RenamedIsFresh(docs: seq<Meta>, fallback: string, order: seq<nat>, ids: seq<Id>, k: nat)
    requires Planned(docs, fallback, order, ids, |order|) && k < |order|
    ensures ids[order[k]] !in KeptIds(docs)
    ensures forall j :: 0 <= j < k ==> ids[order[j]] != ids[order[k]]
  {
    assert ids[order[k]] !in TakenBefore(docs, order, ids, k);
  }

  /** The renaming is injective: final ids are pairwise distinct exactly when the ids that were
      kept are. None looks like a UUID. */
  lemma {:induction false} FinalIds(docs: seq<Meta>, fallback: string, order: seq<nat>, ids: seq<Id>, remap: map<Id, Id>)
    requires IsPlan(docs, fallback, order, ids, remap)
    ensures Distinct(ids) <==> KeptDistinct(docs)
    ensures forall i :: 0 <= i < |ids| ==> !IsUuid(ids[i])
  {
    forall i | 0 <= i < |ids|
      ensures !IsUuid(ids[i])
    {
      if IsUuid(docs[i].id) {
        var k := RankOf(docs, order, i);
        BaseHasNoDash(docs[i].name, fallback);
        FreshIdIsNoUuid(SlugBase(docs[i].name, fallback), TakenBefore(docs, order, ids, k));
      } else {
        KeptStays(docs, fallback, order, ids, i);
      }
    }
    assert |ids| == |docs|;
    hide IsUuid, Planned, KeptIds;
    if KeptDistinct(docs) {
      forall i, j | 0 <= i < j < |ids|
        ensures ids[i] != ids[j]
      {
        DifferentIds(docs, fallback, order, ids, remap, i, j);
      }
    }
    if Distinct(ids) {
      forall i, j | 0 <= i < j < |docs| && !IsUuid(docs[i].id) && !IsUuid(docs[j].id)
        ensures docs[i].id != docs[j].id
      {
        KeptStays(docs, fallback, order, ids, i);
        KeptStays(docs, fallback, order, ids, j);
      }
    }
  }

  lemma {:induction false} DifferentIds(docs: seq<Meta>, fallback: string, order: seq<nat>, ids: seq<Id>,
                                        remap: map<Id, Id>, i: nat, j: nat)
    requires IsPlan(docs, fallback, order, ids, remap) && KeptDistinct(docs) && i < j < |docs| && |ids| == |docs|
    ensures ids[i] != ids[j]
  {
    hide Planned, KeptIds, IsUuid;
    if IsUuid(docs[i].id) && IsUuid(docs[j].id) {
      var k := RankOf(docs, order, i);
      var l := RankOf(docs, order, j);
      RenamedIsFresh(docs, fallback, order, ids, k);
      RenamedIsFresh(docs, fallback, order, ids, l);
    } else if IsUuid(docs[i].id) {
      var k := RankOf(docs, order, i);
      RenamedIsFresh(docs, fallback, order, ids, k);
      KeptStays(docs, fallback, order, ids, j);
    } else {
      KeptStays(docs, fallback, order, ids, i);
      if IsUuid(docs[j].id) {
        var l := RankOf(docs, order, j);
        RenamedIsFresh(docs, fallback, order, ids, l);
      } else {
        KeptStays(docs, fallback, order, ids, j);
      }
    }
  }

  /** A second run changes no id and reports no renaming. */
  lemma {:induction false} SecondRunChangesNothing(docs: seq<Meta>, fallback: string, order: seq<nat>, ids: seq<Id>,
                                                   remap: map<Id, Id>, again: seq<Meta>, order2: seq<nat>,
                                                   ids2: seq<Id>, remap2: map<Id, Id>)
    requires IsPlan(docs, fallback, order, ids, remap)
    requires |again| == |docs| && forall i :: 0 <= i < |docs| ==> again[i].id == ids[i]
    requires IsPlan(again, fallback, order2, ids2, remap2)
    ensures ids2 == ids && remap2 == map[] && order2 == []
  {
    FinalIds(docs, fallback, order, ids, remap);
    assert forall k :: 0 <= k < |order2| ==> order2[k] in order2 && IsMigrating(again, order2[k]);
  }

  ghost predicate DistinctOldIds(docs: seq<Meta>) {
    forall i, j :: 0 <= i < j < |docs| ==> docs[i].id != docs[j].id
  }

  /** What a reference to `id` becomes. */
  function Renamed(remap: map<Id, Id>, id: Id): Id {
    if id in remap then remap[id] else id
  }

  lemma {:induction false} RemapKeys(docs: seq<Meta>, order: seq<nat>, ids: seq<Id>, done: nat, id: Id)
    requires |ids| == |docs| && done <= |order| && forall j :: 0 <= j < |order| ==> order[j] < |docs|
    requires DistinctOldIds(docs) && Distinct(order)
    ensures id in RemapOf(docs, order, ids, done) <==> exists k :: 0 <= k < done && docs[order[k]].id == id
    ensures forall k :: 0 <= k < done && docs[order[k]].id == id ==> RemapOf(docs, order, ids, done)[id] == ids[order[k]]
  {
    if done > 0 {
      RemapKeys(docs, order, ids, done - 1, id);
      forall k | 0 <= k < done - 1 && docs[order[k]].id == id
        ensures docs[order[done - 1]].id != id
      {
        assert order[k] != order[done - 1];
      }
    }
  }

  /** When old ids are distinct, a reference to any document follows it to its final id. */
  lemma {:induction false} ReferenceFollows(docs: seq<Meta>, fallback: string, order: seq<nat>, ids: seq<Id>,
                                            remap: map<Id, Id>, i: nat)
    requires IsPlan(docs, fallback, order, ids, remap) && DistinctOldIds(docs) && i < |docs|
    ensures Renamed(remap, docs[i].id) == ids[i]
  {
    RemapKeys(docs, order, ids, |order|, docs[i].id);
    hide RemapOf, IsUuid;
    if IsUuid(docs[i].id) {
      var k := RankOf(docs, order, i);
    } else {
      KeptStays(docs, fallback, order, ids, i);
      assert forall k :: 0 <= k < |order| ==> order[k] in order && IsMigrating(docs, order[k]);
    }
  }

  /** Oldest first: by creation time, then by old id, each as text. */
  lemma {:induction false} OrderedByAge(docs: seq<Meta>, order: seq<nat>, j: nat, k: nat)
    requires ListsMigrating(docs, |docs|, order) && j < k < |order|
    ensures order[j] < |docs| && order[k] < |docs|
    ensures var (a, b) := (docs[order[j]], docs[order[k]]);
      StringLess(a.createdAt, b.createdAt) || (a.createdAt == b.createdAt && (StringLess(a.id, b.id) || a.id == b.id))
  {
    var a, b := docs[order[j]], docs[order[k]];
    StringOrder(a.createdAt, b.createdAt, a.createdAt);
    StringOrder(a.id, b.id, a.id);
    hide StringLess;
  }

  /** The id a plan gives a document: the slug of its name, or the fallback when the name is
      blank, and of that the first variant that neither a kept document has nor one renamed
      before it. */
  lemma {:induction false} RenamedTo(docs: seq<Meta>, fallback: string, order: seq<nat>, ids: seq<Id>, remap: map<Id, Id>, k: nat)
    requires IsPlan(docs, fallback, order, ids, remap) && k < |order|
    ensures |ids| == |docs| && order[k] < |docs| && IsUuid(docs[order[k]].id)
    ensures var name := docs[order[k]].name;
      var base := if exists i :: 0 <= i < |name| && !Tokens.IsSpace(name[i]) then Slugify(name) else fallback;
      exists taken :: IsFreeVariant(base, "_", "", taken, ids[order[k]]) && UsedBefore(docs, order, ids, k, taken)
  {
    var name := docs[order[k]].name;
    assert order[k] in order;
    BlankIffStripped(name);
    var taken := TakenBefore(docs, order, ids, k);
    FreeVariantIs(SlugBase(name, fallback), "_", "", taken);
    assert UsedBefore(docs, order, ids, k, taken);
    hide IsFreeVariant, Slugify;
  }

  /** The ids of kept documents and of those renamed before the k-th. */
  ghost predicate UsedBefore(docs: seq<Meta>, order: seq<nat>, ids: seq<Id>, k: nat, taken: set<Id>) {
    && k <= |order| && |ids| == |docs| && (forall j :: 0 <= j < k ==> order[j] < |docs|)
    && forall id :: id in taken <==>
         (exists i :: 0 <= i < |docs| && !IsUuid(docs[i].id) && docs[i].id == id)
         || (exists j :: 0 <= j < k && ids[order[j]] == id)
  }

  lemma {:induction false} BlankIffStripped(s: string)
    ensures Tokens.Strip(s) != "" <==> exists i :: 0 <= i < |s| && !Tokens.IsSpace(s[i])
    decreases |s|
  {
    hide Tokens.IsSpace;
    if s != "" && Tokens.IsSpace(s[0]) {
      BlankIffStripped(s[1..]);
      assert forall i :: 1 <= i < |s| ==> s[i] == s[1..][i - 1];
      assert forall i :: 0 <= i < |s| - 1 ==> s[1..][i] == s[i + 1];
    } else if s != "" {
      assert !Tokens.IsSpace(s[0]);
      StripKeepsFirst(s);
    }
  }

  lemma {:induction false} StripKeepsFirst(s: string)
    requires s != "" && !Tokens.IsSpace(s[0])
    ensures Tokens.Strip(s) != ""
    decreases |s|
  {
    hide Tokens.IsSpace;
    if Tokens.IsSpace(s[|s| - 1]) {
      StripKeepsFirst(s[..|s| - 1]);
    }
  }
}
