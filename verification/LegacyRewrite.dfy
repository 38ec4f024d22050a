/** The migration's rewrite of `%%name%%` to `{{wc.name}}`, on texts and on whole documents. */
module LegacyRewrite {
  import opened Tokens

  function WcToken(name: string): string {
    "{{wc." + Strip(name) + "}}"
  }

  function MatchLength(text: string, i: nat): (n: nat)
    requires i < |text| && LegacyAt(text, i)
    ensures n > 4 && i + n <= |text|
  {
    PercentRun(text, i + 2) + 4
  }

  /** The substitution over the rest of the text from `i` on. */
  function RewriteFrom(text: string, i: nat): string
    requires i <= |text|
    decreases |text| - i
  {
    if i == |text| then ""
    else if LegacyAt(text, i) then WcToken(LegacyName(text, i)) + RewriteFrom(text, i + MatchLength(text, i))
    else [text[i]] + RewriteFrom(text, i + 1)
  }

  /** `_rewrite_legacy_wc` */
  function Rewrite(text: string): string {
    RewriteFrom(text, 0)
  }

  ghost predicate HasMatch(text: string) {
    exists p :: 0 <= p < |text| && LegacyAt(text, p)
  }

  // ---- a text is left alone exactly when nothing in it matches ----

  lemma {:induction false} CopiedUpTo(text: string, i: nat)
    requires i <= |text| && forall p :: 0 <= p < i ==> !LegacyAt(text, p)
    ensures RewriteFrom(text, 0) == text[..i] + RewriteFrom(text, i)
  {
    if i > 0 {
      CopiedUpTo(text, i - 1);
      assert text[..i] == text[..i - 1] + [text[i - 1]];
    }
  }

  lemma {:induction false} UnchangedIffNoMatch(text: string)
    ensures Rewrite(text) == text <==> !HasMatch(text)
  {
    if HasMatch(text) {
      var p := FirstMatch(text);
      CopiedUpTo(text, p);
      assert Rewrite(text)[p] == '{' && text[p] == '%';
    } else {
      CopiedUpTo(text, |text|);
      assert text[..|text|] == text;
    }
  }

  lemma {:induction false} FirstMatch(text: string) returns (p: nat)
    requires HasMatch(text)
    ensures p < |text| && LegacyAt(text, p) && forall q :: 0 <= q < p ==> !LegacyAt(text, q)
  {
    hide LegacyAt;
    p := 0;
    while !LegacyAt(text, p)
      invariant p < |text| && forall q :: 0 <= q < p ==> !LegacyAt(text, q)
      invariant exists q :: p <= q < |text| && LegacyAt(text, q)
      decreases |text| - p
    {
      p := p + 1;
    }
  }

  /** Behind text without percent signs, `%%name%%` becomes `{{wc.name}}`, the name stripped of
      white space at its ends; what comes behind is rewritten by itself. */
  lemma {:induction false} RewritesToken(pre: string, name: string, post: string)
    requires '%' !in pre && name != "" && '%' !in name && '\n' !in name
    ensures Rewrite(pre + "%%" + name + "%%" + post) == pre + "{{wc." + Strip(name) + "}}" + Rewrite(post)
    ensures Rewrite(pre) == pre
  {
    hide *;
    var front := pre + "%%" + name + "%%";
    var text, k := front + post, |pre|;
    FrontOfText(pre, front, post);
    TokenAt(pre, name, post);
    NoTokenIn(text, k);
    NoTokenIn(pre, k);
    CopiedUpTo(text, k);
    CopiedUpTo(pre, k);
    RewriteAt(text, k);
    RewriteAt(pre, k);
    SuffixAlone(front, post, 0);
    RewriteStarts(text);
    RewriteStarts(pre);
    RewriteStarts(post);
    TokenIs(name);
    assert pre + ("{{wc." + Strip(name) + "}}") + Rewrite(post) == pre + ("{{wc." + Strip(name) + "}}" + Rewrite(post));
    assert pre + "{{wc." + Strip(name) + "}}" == pre + ("{{wc." + Strip(name) + "}}");
    assert pre + "" == pre;
  }

  lemma {:induction false} TokenIs(name: string)
    ensures WcToken(name) == "{{wc." + Strip(name) + "}}"
  {
  }

  lemma {:induction false} RewriteStarts(text: string)
    ensures Rewrite(text) == RewriteFrom(text, 0)
  {
  }

  lemma {:induction false} FrontOfText(pre: string, front: string, post: string)
    requires pre <= front && '%' !in pre
    ensures (front + post)[..|pre|] == pre && pre[..|pre|] == pre
    ensures forall j :: 0 <= j < |pre| ==> (front + post)[j] != '%' && pre[j] != '%'
  {
    assert forall j :: 0 <= j < |pre| ==> (front + post)[j] == front[j] == front[..|pre|][j] == pre[j] && pre[j] in pre;
  }

  lemma {:induction false} NoTokenIn(text: string, k: nat)
    requires k <= |text| && forall j :: 0 <= j < k ==> text[j] != '%'
    ensures forall p :: 0 <= p < k ==> !LegacyAt(text, p)
  {
  }

  lemma {:induction false} RewriteAt(text: string, i: nat)
    requires i <= |text|
    ensures i == |text| ==> RewriteFrom(text, i) == ""
    ensures i < |text| && LegacyAt(text, i) ==>
      RewriteFrom(text, i) == WcToken(LegacyName(text, i)) + RewriteFrom(text, i + MatchLength(text, i))
    ensures i < |text| && !LegacyAt(text, i) ==> RewriteFrom(text, i) == [text[i]] + RewriteFrom(text, i + 1)
  {
  }

  lemma {:induction false} TokenAt(pre: string, name: string, post: string)
    requires name != "" && '%' !in name && '\n' !in name
    ensures var text := pre + "%%" + name + "%%" + post;
      LegacyAt(text, |pre|) && LegacyName(text, |pre|) == name && MatchLength(text, |pre|) == |name| + 4
  {
    var text, k := pre + "%%" + name + "%%" + post, |pre|;
    assert text[k + 2..k + 2 + |name|] == name;
    RunIs(text, k + 2, |name|);
  }

  lemma {:induction false} RunIs(text: string, i: nat, k: nat)
    requires i + k < |text| && text[i + k] == '%' && '%' !in text[i..i + k] && '\n' !in text[i..i + k]
    ensures PercentRun(text, i) == k
    decreases k
  {
    if k > 0 {
      assert text[i..i + k][0] == text[i] && text[i + 1..i + k] == text[i..i + k][1..];
      RunIs(text, i + 1, k - 1);
    }
  }

  /** The substitution looks only ahead. */
  lemma {:induction false} SuffixAlone(front: string, back: string, p: nat)
    requires p <= |back|
    ensures RewriteFrom(front + back, |front| + p) == RewriteFrom(back, p)
    decreases |back| - p
  {
    hide *;
    var all := front + back;
    RewriteAt(all, |front| + p);
    RewriteAt(back, p);
    if p < |back| {
      MatchShift(front, back, p);
      if LegacyAt(back, p) {
        NameShift(front, back, p);
        SuffixAlone(front, back, p + MatchLength(back, p));
      } else {
        assert all[|front| + p] == back[p];
        SuffixAlone(front, back, p + 1);
      }
    }
  }

  lemma {:induction false} NameShift(front: string, back: string, p: nat)
    requires p < |back| && LegacyAt(back, p) && LegacyAt(front + back, |front| + p)
    ensures LegacyName(front + back, |front| + p) == LegacyName(back, p)
    ensures MatchLength(front + back, |front| + p) == MatchLength(back, p)
  {
    RunShift(front, back, p + 2);
    hide PercentRun;
  }

  // ---- where a rewritten text can match again ----

  /** Reading on from `j`, a pair of percent signs that stays in the text comes before any
      newline or lone percent sign. */
  predicate ClosesAfter(text: string, j: nat)
    requires j <= |text|
    decreases |text| - j
  {
    if j == |text| then false
    else if LegacyAt(text, j) then ClosesAfter(text, j + MatchLength(text, j))
    else if text[j] == '%' then PairAt(text, j, '%') && !LegacyAt(text, j + 1)
    else text[j] != '\n' && ClosesAfter(text, j + 1)
  }

  /** A pair of percent signs that stays, directly before a token, and closed again later. */
  predicate Wedge(text: string, i: nat)
    requires i < |text|
  {
    && PairAt(text, i, '%') && !LegacyAt(text, i) && !LegacyAt(text, i + 1)
    && LegacyAt(text, i + 2) && ClosesAfter(text, i + 2)
  }

  /** The substitution pass meets a wedge. */
  predicate HasWedge(text: string, i: nat)
    requires i <= |text|
    decreases |text| - i
  {
    if i == |text| then false
    else if LegacyAt(text, i) then HasWedge(text, i + MatchLength(text, i))
    else Wedge(text, i) || HasWedge(text, i + 1)
  }

  lemma {:induction false} RunShift(front: string, back: string, p: nat)
    requires p <= |back|
    ensures PercentRun(front + back, |front| + p) == PercentRun(back, p)
    decreases |back| - p
  {
    var all := front + back;
    if p < |back| {
      assert all[|front| + p] == back[p];
      RunShift(front, back, p + 1);
    }
  }

  lemma {:induction false} MatchShift(front: string, back: string, p: nat)
    requires p < |back|
    ensures LegacyAt(front + back, |front| + p) <==> LegacyAt(back, p)
  {
    var all := front + back;
    assert all[|front| + p] == back[p];
    if p + 1 < |back| {
      assert all[|front| + p + 1] == back[p + 1];
      RunShift(front, back, p + 2);
      var k := PercentRun(back, p + 2);
      assert p + 2 + k < |back| ==> all[|front| + p + 2 + k] == back[p + 2 + k];
      assert p + 3 + k < |back| ==> all[|front| + p + 3 + k] == back[p + 3 + k];
    }
  }

  /** A run continues through text without percent signs and newlines. */
  lemma {:induction false} RunThrough(front: string, back: string)
    requires forall c :: c in front ==> c != '%' && c != '\n'
    ensures PercentRun(front + back, 0) == |front| + PercentRun(back, 0)
  {
    if front == "" {
      assert front + back == back;
    } else {
      var all := front + back;
      assert all == [front[0]] + (front[1..] + back);
      assert front[0] in front && forall c :: c in front[1..] ==> c in front;
      RunThrough(front[1..], back);
      RunShift([front[0]], front[1..] + back, 0);
    }
  }

  lemma {:induction false} TokenHasNoPercent(text: string, i: nat)
    requires i < |text| && LegacyAt(text, i)
    ensures forall c :: c in WcToken(LegacyName(text, i)) ==> c != '%' && c != '\n'
  {
    var name := LegacyName(text, i);
    forall c | c in WcToken(name)
      ensures c != '%' && c != '\n'
    {
      assert c in Strip(name) ==> c in name;
    }
  }

  /** The rewritten rest starts with a kept percent sign exactly when the text has one here. */
  lemma {:induction false} FirstOfRest(text: string, j: nat)
    requires j <= |text|
    ensures var r := RewriteFrom(text, j);
      && (|r| > 0 && r[0] == '%' <==> j < |text| && text[j] == '%' && !LegacyAt(text, j))
      && (j < |text| && !LegacyAt(text, j) ==> |r| > 0 && r[0] == text[j])
  {
    if j < |text| && LegacyAt(text, j) {
      assert RewriteFrom(text, j)[0] == '{';
    }
  }

  lemma {:induction false} ClosesInRest(text: string, j: nat)
    requires j <= |text|
    ensures var r := RewriteFrom(text, j); PairAt(r, PercentRun(r, 0), '%') <==> ClosesAfter(text, j)
    decreases |text| - j
  {
    var r := RewriteFrom(text, j);
    if j < |text| {
      hide WcToken, LegacyName;
      if LegacyAt(text, j) {
        var token, rest := WcToken(LegacyName(text, j)), RewriteFrom(text, j + MatchLength(text, j));
        TokenHasNoPercent(text, j);
        RunThrough(token, rest);
        ClosesInRest(text, j + MatchLength(text, j));
        PairShift(token, rest, PercentRun(rest, 0));
      } else {
        var rest := RewriteFrom(text, j + 1);
        assert r == [text[j]] + rest;
        if text[j] == '%' {
          FirstOfRest(text, j + 1);
        } else if text[j] != '\n' {
          RunThrough([text[j]], rest);
          ClosesInRest(text, j + 1);
          PairShift([text[j]], rest, PercentRun(rest, 0));
        }
      }
    }
  }

  lemma {:induction false} PairShift(front: string, back: string, p: nat)
    ensures PairAt(front + back, |front| + p, '%') <==> PairAt(back, p, '%')
  {
    var all := front + back;
    assert p < |back| ==> all[|front| + p] == back[p];
    assert p + 1 < |back| ==> all[|front| + p + 1] == back[p + 1];
  }

  /** Up to the first percent sign or newline the rewrite copies. */
  lemma {:induction false} PlainRunKept(text: string, j: nat)
    requires j <= |text|
    ensures var k := PercentRun(text, j);
      RewriteFrom(text, j) == text[j..j + k] + RewriteFrom(text, j + k)
    decreases |text| - j
  {
    var k := PercentRun(text, j);
    if k > 0 {
      assert PercentRun(text, j + 1) == k - 1 && text[j] != '%';
      assert RewriteFrom(text, j) == [text[j]] + RewriteFrom(text, j + 1);
      hide RewriteFrom, PercentRun, LegacyAt;
      PlainRunKept(text, j + 1);
      SliceCons(text, j, k, RewriteFrom(text, j + k));
    } else {
      hide RewriteFrom;
      assert text[j..j] == "" && "" + RewriteFrom(text, j) == RewriteFrom(text, j);
    }
  }

  lemma {:induction false} SliceCons(text: string, j: nat, k: nat, rest: string)
    requires 0 < k && j + k <= |text|
    ensures text[j..j + k] + rest == [text[j]] + (text[j + 1..j + k] + rest)
  {
  }

  lemma {:induction false} RunHasNoPercent(text: string, i: nat, run: string)
    requires i <= |text| && run == text[i..i + PercentRun(text, i)]
    ensures forall c :: c in run ==> c != '%' && c != '\n'
  {
    forall c | c in run
      ensures c != '%' && c != '\n'
    {
      var x :| 0 <= x < |run| && run[x] == c;
      assert run[x] == text[i + x];
    }
  }

  /** At the end of a run the rewritten rest goes on like the text, unless a token starts. */
  lemma {:induction false} RestAfterRun(text: string, q: nat)
    requires q <= |text| && (q < |text| ==> text[q] == '%' || text[q] == '\n')
    ensures var rest := RewriteFrom(text, q);
      (q < |text| ==> !LegacyAt(text, q)) ==>
        PercentRun(rest, 0) == 0 && (PairAt(rest, 0, '%') ==> PairAt(text, q, '%'))
  {
    if q < |text| && !LegacyAt(text, q) {
      assert RewriteFrom(text, q) == [text[q]] + RewriteFrom(text, q + 1);
      FirstOfRest(text, q + 1);
    }
  }

  lemma {:induction false} NoTokenAtRunEnd(text: string, i: nat)
    requires PairAt(text, i, '%') && !LegacyAt(text, i) && (i + 2 < |text| ==> !LegacyAt(text, i + 2))
    ensures var q := i + 2 + PercentRun(text, i + 2); q < |text| ==> !LegacyAt(text, q)
  {
    hide PercentRun;
  }

  /** Without a token directly behind it, a kept pair closes nothing it did not close before. */
  lemma {:induction false} NoTokenNoMatch(text: string, i: nat)
    requires PairAt(text, i, '%') && !LegacyAt(text, i) && (i + 2 < |text| ==> !LegacyAt(text, i + 2))
    ensures var r := RewriteFrom(text, i + 2); var n := PercentRun(r, 0); n == 0 || !PairAt(r, n, '%')
  {
    hide RewriteFrom, PercentRun, LegacyAt;
    var k := PercentRun(text, i + 2);
    var q := i + 2 + k;
    var run, rest := text[i + 2..q], RewriteFrom(text, q);
    NoTokenAtRunEnd(text, i);
    PlainRunKept(text, i + 2);
    RunHasNoPercent(text, i + 2, run);
    RestAfterRun(text, q);
    JoinedRun(run, rest);
    if k > 0 {
      NoPairAtRunEnd(text, i);
    }
  }

  lemma {:induction false} JoinedRun(run: string, rest: string)
    requires forall c :: c in run ==> c != '%' && c != '\n'
    requires PercentRun(rest, 0) == 0
    ensures PercentRun(run + rest, 0) == |run|
    ensures PairAt(run + rest, |run|, '%') <==> PairAt(rest, 0, '%')
  {
    hide PercentRun;
    RunThrough(run, rest);
    PairShift(run, rest, 0);
  }

  lemma {:induction false} NoPairAtRunEnd(text: string, i: nat)
    requires PairAt(text, i, '%') && !LegacyAt(text, i) && PercentRun(text, i + 2) > 0
    ensures !PairAt(text, i + 2 + PercentRun(text, i + 2), '%')
  {
    hide PercentRun;
  }

  /** A match at the very start of the rewritten rest is a wedge of the text. */
  lemma {:induction false} MatchAtStartIsWedge(text: string, i: nat)
    requires i < |text| && !LegacyAt(text, i)
    ensures LegacyAt(RewriteFrom(text, i), 0) <==> Wedge(text, i)
  {
    hide RewriteFrom, PercentRun;
    FirstTwoOfRest(text, i);
    if PairAt(text, i, '%') && !LegacyAt(text, i + 1) {
      PairThenRest(text, i);
    }
  }

  lemma {:induction false} PairThenRest(text: string, i: nat)
    requires PairAt(text, i, '%') && !LegacyAt(text, i) && !LegacyAt(text, i + 1)
    ensures LegacyAt("%%" + RewriteFrom(text, i + 2), 0) <==>
            i + 2 < |text| && LegacyAt(text, i + 2) && ClosesAfter(text, i + 2)
  {
    hide RewriteFrom, PercentRun, ClosesAfter;
    var r2 := RewriteFrom(text, i + 2);
    RunShift("%%", r2, 0);
    PairShift("%%", r2, PercentRun(r2, 0));
    if i + 2 < |text| && LegacyAt(text, i + 2) {
      ClosesInRest(text, i + 2);
      TokenOpensRun(text, i + 2);
    } else {
      NoTokenNoMatch(text, i);
    }
  }

  lemma {:induction false} FirstTwoOfRest(text: string, i: nat)
    requires i < |text| && !LegacyAt(text, i)
    ensures var r := RewriteFrom(text, i);
      && (PairAt(r, 0, '%') <==> PairAt(text, i, '%') && !LegacyAt(text, i + 1))
      && (PairAt(r, 0, '%') ==> r == "%%" + RewriteFrom(text, i + 2))
  {
    assert RewriteFrom(text, i) == [text[i]] + RewriteFrom(text, i + 1);
    FirstOfRest(text, i + 1);
    if PairAt(text, i, '%') && !LegacyAt(text, i + 1) {
      assert RewriteFrom(text, i + 1) == [text[i + 1]] + RewriteFrom(text, i + 2);
    }
  }

  lemma {:induction false} TokenOpensRun(text: string, j: nat)
    requires j < |text| && LegacyAt(text, j)
    ensures PercentRun(RewriteFrom(text, j), 0) > 0
  {
    assert RewriteFrom(text, j)[0] == '{';
  }

  /** The rewritten text matches again exactly when the pass meets a wedge. */
  lemma {:induction false} MatchesAgainIffWedge(text: string, i: nat)
    requires i <= |text|
    ensures HasMatch(RewriteFrom(text, i)) <==> HasWedge(text, i)
    decreases |text| - i
  {
    hide LegacyAt, Wedge;
    var r := RewriteFrom(text, i);
    if i < |text| {
      if LegacyAt(text, i) {
        var token, next := WcToken(LegacyName(text, i)), i + MatchLength(text, i);
        hide WcToken, LegacyName, MatchLength;
        TokenHasNoPercent(text, i);
        MatchesAgainIffWedge(text, next);
        MatchesInParts(token, RewriteFrom(text, next));
        forall p | 0 <= p < |token|
          ensures !LegacyAt(r, p)
        {
          assert r[p] == token[p] && token[p] in token;
          NoPercentNoMatch(r, p);
        }
      } else {
        MatchesAgainIffWedge(text, i + 1);
        MatchesInParts([text[i]], RewriteFrom(text, i + 1));
        MatchAtStartIsWedge(text, i);
      }
    }
  }

  lemma {:induction false} NoPercentNoMatch(text: string, p: nat)
    requires p < |text| && text[p] != '%'
    ensures !LegacyAt(text, p)
  {
  }

  lemma {:induction false} MatchesInParts(front: string, back: string)
    ensures HasMatch(front + back) <==>
      HasMatch(back) || exists p :: 0 <= p < |front| && LegacyAt(front + back, p)
  {
    hide LegacyAt;
    var all := front + back;
    if HasMatch(all) {
      var q :| 0 <= q < |all| && LegacyAt(all, q);
      if q >= |front| {
        MatchShift(front, back, q - |front|);
        assert LegacyAt(back, q - |front|);
      }
    }
    if p :| 0 <= p < |front| && LegacyAt(all, p) {
      assert p < |all|;
    }
    if HasMatch(back) {
      var p :| 0 <= p < |back| && LegacyAt(back, p);
      MatchShift(front, back, p);
      var q := |front| + p;
      assert q < |all| && LegacyAt(all, q);
    }
  }

  /** The rewrite is idempotent on a text exactly when the pass meets no wedge. */
  lemma {:induction false} IdempotentIff(text: string)
    ensures Rewrite(Rewrite(text)) == Rewrite(text) <==> !HasWedge(text, 0)
  {
    UnchangedIffNoMatch(Rewrite(text));
    MatchesAgainIffWedge(text, 0);
  }

  /** Four percent signs in a row somewhere. */
  predicate FourPercent(text: string) {
    exists p :: 0 <= p < |text| && PairAt(text, p, '%') && PairAt(text, p + 2, '%')
  }

  lemma {:induction false} WedgeNeedsFour(text: string, i: nat)
    requires i <= |text| && HasWedge(text, i)
    ensures FourPercent(text)
    decreases |text| - i
  {
    if LegacyAt(text, i) {
      WedgeNeedsFour(text, i + MatchLength(text, i));
    } else if Wedge(text, i) {
      assert PairAt(text, i, '%') && PairAt(text, i + 2, '%');
    } else {
      WedgeNeedsFour(text, i + 1);
    }
  }

  /** In particular on every text without four percent signs in a row. */
  lemma {:induction false} IdempotentWithoutFour(text: string)
    requires !FourPercent(text)
    ensures Rewrite(Rewrite(text)) == Rewrite(text)
  {
    if HasWedge(text, 0) {
      WedgeNeedsFour(text, 0);
    }
    IdempotentIff(text);
  }

  /** The documented promise fails on such a text. */
  lemma {:induction false} NotIdempotent()
    ensures Rewrite("%%%%x%%%%") != Rewrite(Rewrite("%%%%x%%%%"))
  {
    var text := "%%%%x%%%%";
    assert PercentRun(text, 5) == 0 && PercentRun(text, 4) == 1 && PercentRun(text, 3) == 0 && PercentRun(text, 2) == 0;
    assert PercentRun(text, 9) == 0 && PercentRun(text, 8) == 0 && PercentRun(text, 7) == 0;
    assert LegacyAt(text, 2) && MatchLength(text, 2) == 5;
    assert !LegacyAt(text, 7) && !LegacyAt(text, 8);
    assert ClosesAfter(text, 7) && ClosesAfter(text, 2);
    assert Wedge(text, 0);
    IdempotentIff(text);
  }

  // ---- whole documents ----

  /** A JSON value; a dict is kept as its keys and its values in order. */
  datatype Json =
    | Str(text: string)
    | List(items: seq<Json>)
    | Dict(keys: seq<string>, values: seq<Json>)
    | Atom(value: string)

  /** The document with its string leaves rewritten, and how many of them changed. */
  function Deep(x: Json): (Json, nat)
    decreases x, 1
  {
    match x
    case Str(text) => (Str(Rewrite(text)), if Rewrite(text) != text then 1 else 0)
    case List(items) => var (out, n) := DeepItems(items); (List(out), n)
    case Dict(keys, values) => var (out, n) := DeepItems(values); (Dict(keys, out), n)
    case Atom(_) => (x, 0)
  }

  function DeepItems(items: seq<Json>): (seq<Json>, nat)
    decreases items, 0
  {
    if items == [] then ([], 0)
    else
      var (out, n) := DeepItems(items[..|items| - 1]);
      var (last, m) := Deep(items[|items| - 1]);
      (out + [last], n + m)
  }

  /** `_deep_rewrite_strings` */
  method DeepRewrite(x: Json) returns (out: Json, count: nat)
    ensures (out, count) == Deep(x)
    decreases x, 1
  {
    match x
    case Str(text) =>
      var rewritten := Rewrite(text);
      return Str(rewritten), if rewritten != text then 1 else 0;
    case List(items) =>
      var list, n := DeepRewriteItems(items);
      return List(list), n;
    case Dict(keys, values) =>
      var list, n := DeepRewriteItems(values);
      return Dict(keys, list), n;
    case Atom(_) =>
      return x, 0;
  }

  /** The loop over a list, or over the values of a dict. */
  method DeepRewriteItems(items: seq<Json>) returns (out: seq<Json>, count: nat)
    ensures (out, count) == DeepItems(items)
    decreases items, 0
  {
    out, count := [], 0;
    for i := 0 to |items|
      invariant (out, count) == DeepItems(items[..i])
    {
      assert items[..i + 1][..i] == items[..i];
      var item, n := DeepRewrite(items[i]);
      out := out + [item];
      count := count + n;
    }
    assert items[..|items|] == items;
  }

  /** The string leaves, in order. */
  function Texts(x: Json): seq<string>
    decreases x, 1
  {
    match x
    case Str(text) => [text]
    case List(items) => TextsIn(items)
    case Dict(_, values) => TextsIn(values)
    case Atom(_) => []
  }

  function TextsIn(items: seq<Json>): seq<string>
    decreases items, 0
  {
    if items == [] then [] else TextsIn(items[..|items| - 1]) + Texts(items[|items| - 1])
  }

  /** Equal but for the texts of string leaves. */
  predicate SameShape(x: Json, y: Json)
    decreases x, 1
  {
    match x
    case Str(_) => y.Str?
    case List(items) => y.List? && SameShapes(items, y.items)
    case Dict(keys, values) => y.Dict? && y.keys == keys && SameShapes(values, y.values)
    case Atom(_) => y == x
  }

  predicate SameShapes(xs: seq<Json>, ys: seq<Json>)
    decreases xs, 0
  {
    |xs| == |ys| && (xs == [] || (SameShapes(xs[..|xs| - 1], ys[..|ys| - 1]) && SameShape(xs[|xs| - 1], ys[|ys| - 1])))
  }

  function Rewritten(texts: seq<string>): (r: seq<string>)
    ensures |r| == |texts|
  {
    seq(|texts|, i requires 0 <= i < |texts| => Rewrite(texts[i]))
  }

  /** How many texts the rewrite changes. */
  function Changed(texts: seq<string>): nat {
    if texts == [] then 0
    else Changed(texts[..|texts| - 1]) + (if Rewrite(texts[|texts| - 1]) != texts[|texts| - 1] then 1 else 0)
  }

  lemma {:induction false} ChangedAppend(a: seq<string>, b: seq<string>)
    ensures Changed(a + b) == Changed(a) + Changed(b) && Rewritten(a + b) == Rewritten(a) + Rewritten(b)
  {
    if b == [] {
      assert a + b == a;
    } else {
      assert (a + b)[..|a + b| - 1] == a + b[..|b| - 1];
      ChangedAppend(a, b[..|b| - 1]);
    }
  }

  /** Exactly the string leaves are rewritten, each by itself, and the count is that of the leaves
      that changed. Keys, order and everything else stay. */
  lemma {:induction false} DeepRewritesTexts(x: Json)
    ensures var (out, count) := Deep(x);
      SameShape(x, out) && Texts(out) == Rewritten(Texts(x)) && count == Changed(Texts(x))
    decreases x, 1
  {
    hide Rewrite;
    match x
    case Str(text) => assert [text][..0] == [];
    case List(items) => DeepRewritesIn(items);
    case Dict(_, values) => DeepRewritesIn(values);
    case Atom(_) =>
  }

  lemma {:induction false} DeepRewritesIn(items: seq<Json>)
    ensures var (out, count) := DeepItems(items);
      SameShapes(items, out) && TextsIn(out) == Rewritten(TextsIn(items)) && count == Changed(TextsIn(items))
    decreases items, 0
  {
    hide Rewrite;
    if items != [] {
      var front, last := items[..|items| - 1], items[|items| - 1];
      DeepRewritesIn(front);
      DeepRewritesTexts(last);
      ChangedAppend(TextsIn(front), Texts(last));
      var out := DeepItems(items).0;
      assert out[..|out| - 1] == DeepItems(front).0 && out[|out| - 1] == Deep(last).0;
      hide Rewritten, Changed;
    }
  }

  /** No string leaf is one the rewrite is not idempotent on. */
  predicate NoWedges(x: Json)
    decreases x, 1
  {
    match x
    case Str(text) => !HasWedge(text, 0)
    case List(items) => NoWedgesIn(items)
    case Dict(_, values) => NoWedgesIn(values)
    case Atom(_) => true
  }

  predicate NoWedgesIn(items: seq<Json>)
    decreases items, 0
  {
    items == [] || (NoWedgesIn(items[..|items| - 1]) && NoWedges(items[|items| - 1]))
  }

  /** The count is zero exactly when nothing changed. */
  lemma {:induction false} CountsChanges(x: Json)
    ensures Deep(x).1 == 0 <==> Deep(x).0 == x
    decreases x, 1
  {
    match x
    case List(items) => CountsChangesIn(items);
    case Dict(_, values) => CountsChangesIn(values);
    case _ =>
  }

  lemma {:induction false} CountsChangesIn(items: seq<Json>)
    ensures DeepItems(items).1 == 0 <==> DeepItems(items).0 == items
    ensures |DeepItems(items).0| == |items|
    decreases items, 0
  {
    if items != [] {
      var front := items[..|items| - 1];
      CountsChangesIn(front);
      CountsChanges(items[|items| - 1]);
      assert items == front + [items[|items| - 1]];
      assert DeepItems(items).0 == items ==> DeepItems(items).0[..|items| - 1] == front;
    }
  }

  /** The lift to documents is idempotent exactly when every string leaf is. */
  lemma {:induction false} DeepIdempotentIff(x: Json)
    ensures Deep(Deep(x).0).0 == Deep(x).0 <==> NoWedges(x)
    decreases x, 1
  {
    match x
    case Str(text) => IdempotentIff(text);
    case List(items) => DeepItemsIdempotentIff(items);
    case Dict(_, values) => DeepItemsIdempotentIff(values);
    case Atom(_) =>
  }

  lemma {:induction false} DeepItemsIdempotentIff(items: seq<Json>)
    ensures DeepItems(DeepItems(items).0).0 == DeepItems(items).0 <==> NoWedgesIn(items)
    decreases items, 0
  {
    if items != [] {
      var front, last := items[..|items| - 1], items[|items| - 1];
      DeepItemsIdempotentIff(front);
      DeepIdempotentIff(last);
      var once := DeepItems(items).0;
      assert once[..|once| - 1] == DeepItems(front).0;
      CountsChangesIn(front);
      CountsChangesIn(DeepItems(front).0);
      var twice := DeepItems(once).0;
      assert twice[..|once| - 1] == DeepItems(DeepItems(front).0).0;
      assert once == once[..|once| - 1] + [once[|once| - 1]];
    }
  }
}
