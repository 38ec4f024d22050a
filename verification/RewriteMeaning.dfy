/** What the migration's rewrite of `%%name%%` means to the resolver. */
module RewriteMeaning {
  import opened Prelude
  import opened Tokens
  import opened Envelope
  import opened PromptTemplate
  import LegacyRewrite

  lemma {:induction false} StripTwice(s: string)
    ensures var t := Strip(s);
      Strip(t) == t && (t != "" ==> !IsSpace(t[0]) && !IsSpace(t[|t| - 1]))
    decreases |s|
  {
    if s != "" && IsSpace(s[0]) {
      StripTwice(s[1..]);
    } else if s != "" && IsSpace(s[|s| - 1]) {
      StripTwice(s[..|s| - 1]);
    }
  }

  /** What the rewrite puts in the place of `%%name%%`. */
  function NewToken(name: string): string {
    "{{wc." + Strip(name) + "}}"
  }

  lemma {:induction false} NewTokenText(name: string)
    requires '{' !in name && '}' !in name
    ensures IsTokenText("wc." + Strip(name)) && NewToken(name) == "{{" + "" + ("wc." + Strip(name)) + "" + "}}"
  {
    StripTwice(name);
    var token := "wc." + Strip(name);
    forall c | c in token
      ensures c != '{' && c != '}'
    {
      assert c in "wc." || c in Strip(name);
    }
    assert token[0] == 'w' && token[|token| - 1] == if Strip(name) == "" then '.' else Strip(name)[|Strip(name)| - 1];
  }

  /** The rewritten token is a wildcard token of the same name exactly when the name holds no
      brace: `%%a{b%%` can be a legacy token, but no brace token can hold one. */
  lemma {:induction false} NewTokenIff(name: string)
    ensures var token := NewToken(name);
      MatchAt(token, 0) == Brace(|token|, "wc." + Strip(name)) <==> '{' !in Strip(name) && '}' !in Strip(name)
  {
    var s, token := Strip(name), NewToken(name);
    StripTwice(name);
    if '{' !in s && '}' !in s {
      NewTokenText(s);
      BraceIn("", "", "wc." + s, "", "");
      assert "" + ("{{" + "" + ("wc." + s) + "" + "}}") + "" == token;
    } else {
      var j :| 0 <= j < |s| && (s[j] == '{' || s[j] == '}');
      assert token[5 + j] == s[j];
      assert BraceRun(token, 2) <= 3 + j;
      hide BraceRun;
    }
  }

  /** Between plain texts, a token of either notation renders alike: the same entry drawn for the
      same key, when the name holds no brace. */
  lemma {:induction false} RewrittenRendersAlike(cfg: Config, v: Values, pre: string, name: string, post: string)
    requires cfg.cap > 0 && Plain(pre) && Plain(post) && name != ""
    requires '%' !in name && '\n' !in name && '{' !in name && '}' !in name
    ensures LegacyRewrite.Rewrite(pre + "%%" + name + "%%" + post) == pre + NewToken(name) + post
    ensures WildcardRenders(cfg, v, pre, "%%" + name + "%%", post, name)
    ensures WildcardRenders(cfg, v, pre, NewToken(name), post, name)
  {
    LegacyRewrite.RewritesToken(pre, name, post);
    LegacyRewrite.RewritesToken(post, name, "");
    LegacyTokenRenders(cfg, v, pre, name, post);
    NewTokenText(name);
    StripTwice(name);
    WildcardTokenRenders(cfg, v, pre, "", Strip(name), "", post);
    hide Strip;
  }

  // ---- whole texts ----

  function TokenLength(text: string, i: nat): (n: nat)
    requires i < |text| && BraceAt(text, i)
    ensures n > 4 && i + n <= |text|
  {
    BraceRun(text, i + 2) + 4
  }

  /** The two notations keep apart: reading on from `i`, no legacy token starts in a brace token
      and no legacy token holds a brace in its name. */
  predicate Apart(text: string, i: nat)
    requires i <= |text|
    decreases |text| - i
  {
    if i == |text| then true
    else if BraceAt(text, i) then
      && (forall q :: i <= q < i + TokenLength(text, i) ==> !LegacyAt(text, q))
      && Apart(text, i + TokenLength(text, i))
    else if LegacyAt(text, i) then
      '{' !in LegacyName(text, i) && '}' !in LegacyName(text, i) && Apart(text, i + LegacyRewrite.MatchLength(text, i))
    else Apart(text, i + 1)
  }

  /** Every legacy token the resolver meets from `i` on names a wildcard with entries. */
  predicate AllKnown(lib: Library, text: string, i: nat)
    requires i <= |text|
    decreases |text| - i
  {
    if i == |text| then true
    else if BraceAt(text, i) then AllKnown(lib, text, i + TokenLength(text, i))
    else if LegacyAt(text, i) then
      Entries(lib, Lower(Strip(LegacyName(text, i)))) != [] && AllKnown(lib, text, i + LegacyRewrite.MatchLength(text, i))
    else AllKnown(lib, text, i + 1)
  }

  /** One step of the three recursions. */
  lemma {:induction false} ReadOn(lib: Library, text: string, i: nat)
    requires i < |text| && !LegacyRewrite.HasWedge(text, i) && Apart(text, i)
    ensures BraceAt(text, i) ==>
      && !LegacyAt(text, i) && (forall q :: i <= q < i + TokenLength(text, i) ==> !LegacyAt(text, q))
      && Apart(text, i + TokenLength(text, i))
      && (AllKnown(lib, text, i) <==> AllKnown(lib, text, i + TokenLength(text, i)))
    ensures LegacyAt(text, i) ==>
      && !BraceAt(text, i) && Apart(text, i + LegacyRewrite.MatchLength(text, i))
      && !LegacyRewrite.HasWedge(text, i + LegacyRewrite.MatchLength(text, i))
      && '{' !in LegacyName(text, i) && '}' !in LegacyName(text, i)
      && (AllKnown(lib, text, i) <==>
          Entries(lib, Lower(Strip(LegacyName(text, i)))) != [] && AllKnown(lib, text, i + LegacyRewrite.MatchLength(text, i)))
    ensures !BraceAt(text, i) && !LegacyAt(text, i) ==>
      && Apart(text, i + 1) && !LegacyRewrite.HasWedge(text, i + 1) && !LegacyRewrite.Wedge(text, i)
      && (AllKnown(lib, text, i) <==> AllKnown(lib, text, i + 1))
  {
    hide BraceRun, PercentRun, LegacyRewrite.Wedge, Strip, Lower, Entries;
  }

  lemma {:induction false} CopiedRange(text: string, i: nat, j: nat)
    requires i <= j <= |text| && forall q :: i <= q < j ==> !LegacyAt(text, q)
    ensures LegacyRewrite.RewriteFrom(text, i) == text[i..j] + LegacyRewrite.RewriteFrom(text, j)
    ensures !LegacyRewrite.HasWedge(text, i) ==> !LegacyRewrite.HasWedge(text, j)
    decreases j - i
  {
    hide LegacyAt, LegacyRewrite.Wedge;
    var rest := LegacyRewrite.RewriteFrom(text, j);
    if i < j {
      assert LegacyRewrite.RewriteFrom(text, i) == [text[i]] + LegacyRewrite.RewriteFrom(text, i + 1);
      CopiedRange(text, i + 1, j);
      hide LegacyRewrite.RewriteFrom;
      CharBefore(text, i, j, rest);
    } else {
      assert text[i..j] + rest == rest;
    }
  }

  /** A brace token in which no legacy token starts is met again in the rewrite. */
  lemma {:induction false} BraceKept(text: string, i: nat)
    requires i < |text| && BraceAt(text, i) && forall q :: i <= q < i + TokenLength(text, i) ==> !LegacyAt(text, q)
    ensures var (r, n) := (LegacyRewrite.RewriteFrom(text, i), TokenLength(text, i));
      && r == text[i..i + n] + LegacyRewrite.RewriteFrom(text, i + n) && |text[i..i + n]| == n
      && MatchAt(r, 0) == MatchAt(text, i) == Brace(n, BraceToken(text, i)) && r[0..n] == text[i..i + n]
  {
    hide *;
    var n := TokenLength(text, i);
    var r, rest := LegacyRewrite.RewriteFrom(text, i), LegacyRewrite.RewriteFrom(text, i + n);
    CopiedRange(text, i, i + n);
    FrontIs(text, i, n, rest);
    SameBrace(text, i, r, n);
  }

  lemma {:induction false} FrontIs(text: string, i: nat, n: nat, rest: string)
    requires i + n <= |text|
    ensures (text[i..i + n] + rest)[0..n] == text[i..i + n] && |text[i..i + n]| == n <= |text[i..i + n] + rest|
  {
  }

  lemma {:induction false} SameBrace(text: string, i: nat, other: string, n: nat)
    requires i < |text| && BraceAt(text, i) && n == TokenLength(text, i) <= |other| && other[0..n] == text[i..i + n]
    ensures MatchAt(other, 0) == MatchAt(text, i) == Brace(n, BraceToken(text, i))
  {
    assert forall j :: 0 <= j < n ==> other[j] == other[0..n][j] == text[i..i + n][j] == text[i + j];
    assert text[i + 2 + (n - 4)] == '}';
    BraceRunIs(other, 2, n - 4);
    assert other[2..n - 2] == text[i + 2..i + n - 2];
    hide Strip, BraceRun;
  }

  /** No brace token comes to be where there was none. */
  lemma {:induction false} RunInRewrite(text: string, j: nat)
    requires j <= |text|
    ensures var r := LegacyRewrite.RewriteFrom(text, j);
      PairAt(r, BraceRun(r, 0), '}') ==> BraceRun(r, 0) == BraceRun(text, j) && PairAt(text, j + BraceRun(text, j), '}')
    decreases |text| - j
  {
    var r := LegacyRewrite.RewriteFrom(text, j);
    LegacyRewrite.RewriteAt(text, j);
    if j < |text| && !LegacyAt(text, j) {
      hide LegacyAt, LegacyRewrite.RewriteFrom;
      var rest := LegacyRewrite.RewriteFrom(text, j + 1);
      assert r[0] == text[j];
      if text[j] == '{' || text[j] == '}' {
        StartOfRest(text, j + 1);
      } else {
        RunInRewrite(text, j + 1);
        BraceRunShift([text[j]], rest, 0);
        assert BraceRun(r, 0) == 1 + BraceRun(rest, 0);
        var k := BraceRun(rest, 0);
        assert PairAt(r, 1 + k, '}') ==> PairAt(rest, k, '}');
      }
    } else if j < |text| {
      StartOfRest(text, j);
      hide LegacyRewrite.RewriteFrom;
      assert BraceRun(r, 0) == 0;
    }
  }

  lemma {:induction false} StartOfRest(text: string, j: nat)
    requires j <= |text|
    ensures var r := LegacyRewrite.RewriteFrom(text, j);
      && (j == |text| ==> r == "")
      && (j < |text| && LegacyAt(text, j) ==> |r| > 1 && r[0] == '{' && r[1] == '{')
      && (j < |text| && !LegacyAt(text, j) ==> |r| > 0 && r[0] == text[j])
  {
    hide LegacyAt;
  }

  lemma {:induction false} NoBraceComes(text: string, i: nat)
    requires i < |text| && !BraceAt(text, i) && !LegacyAt(text, i)
    ensures !BraceAt(LegacyRewrite.RewriteFrom(text, i), 0)
  {
    var r := LegacyRewrite.RewriteFrom(text, i);
    LegacyRewrite.RewriteAt(text, i);
    StartOfRest(text, i + 1);
    hide LegacyAt, LegacyRewrite.RewriteFrom;
    if PairAt(r, 0, '{') {
      if LegacyAt(text, i + 1) {
        assert r[2] == '{';
      } else {
        assert text[i] == '{' && text[i + 1] == '{';
        LegacyRewrite.RewriteAt(text, i + 1);
        var rest := LegacyRewrite.RewriteFrom(text, i + 2);
        assert r == "{{" + rest;
        RunInRewrite(text, i + 2);
        BraceRunShift("{{", rest, 0);
        var k := BraceRun(rest, 0);
        assert PairAt(r, 2 + k, '}') ==> PairAt(rest, k, '}');
        hide BraceRun;
      }
    }
  }

  lemma {:induction false} BraceRunShift(front: string, back: string, p: nat)
    requires p <= |back|
    ensures BraceRun(front + back, |front| + p) == BraceRun(back, p)
    decreases |back| - p
  {
    if p < |back| {
      assert (front + back)[|front| + p] == back[p];
      BraceRunShift(front, back, p + 1);
    }
  }

  lemma {:induction false} SliceShift(front: string, back: string, i: nat, j: nat)
    requires i <= j <= |back|
    ensures (front + back)[|front| + i..|front| + j] == back[i..j]
  {
  }

  lemma {:induction false} BraceAtShift(front: string, back: string, p: nat)
    requires p < |back|
    ensures BraceAt(front + back, |front| + p) <==> BraceAt(back, p)
    ensures BraceAt(back, p) ==> BraceToken(front + back, |front| + p) == BraceToken(back, p)
                                 && BraceRun(front + back, |front| + p + 2) == BraceRun(back, p + 2)
  {
    PairShift(front, back, p, '{');
    if p + 2 <= |back| {
      var k := BraceRun(back, p + 2);
      BraceRunShift(front, back, p + 2);
      PairShift(front, back, p + 2 + k, '}');
      SliceShift(front, back, p + 2, p + 2 + k);
      hide BraceRun, Strip, PairAt;
    }
  }

  lemma {:induction false} PairShift(front: string, back: string, p: nat, c: char)
    ensures PairAt(front + back, |front| + p, c) <==> PairAt(back, p, c)
  {
    var all := front + back;
    assert p < |back| ==> all[|front| + p] == back[p];
    assert p + 1 < |back| ==> all[|front| + p + 1] == back[p + 1];
  }

  /** The matcher looks only ahead. */
  lemma {:induction false} MatchAtShift(front: string, back: string, p: nat)
    requires p < |back|
    ensures MatchAt(front + back, |front| + p) == MatchAt(back, p)
  {
    LegacyRewrite.MatchShift(front, back, p);
    BraceAtShift(front, back, p);
    if LegacyAt(back, p) {
      LegacyRewrite.NameShift(front, back, p);
    }
    hide BraceRun, PercentRun, BraceAt, LegacyAt, BraceToken, LegacyName;
  }

  lemma {:induction false} ScanShift(cfg: Config, v: Values, front: string, back: string, i: nat, p: Progress)
    requires i <= |back| && cfg.cap > 0
    ensures Scan(cfg, v, front + back, |front| + i, {}, {}, 0, p) == Scan(cfg, v, back, i, {}, {}, 0, p)
    decreases |back| - i
  {
    hide Replace, MatchAt;
    var all, at := front + back, |front| + i;
    if i < |back| {
      MatchAtShift(front, back, i);
      var m := MatchAt(back, i);
      assert all[at] == back[i];
      if m.NoMatch? {
        ScanShift(cfg, v, front, back, i + 1, p);
      } else {
        assert all[at..at + m.length] == back[i..i + m.length];
        ScanShift(cfg, v, front, back, i + m.length, Replace(cfg, v, m, back[i..i + m.length], {}, {}, 0, p).1);
      }
    }
  }

  /** Both notations of one name expand alike when the name is known and nothing is tracked;
      else each stays. */
  lemma {:induction false} SameExpansion(cfg: Config, v: Values, name: string, legacy: string, brace: string, p: Progress)
    requires cfg.cap > 0 && !cfg.track
    ensures var a := Replace(cfg, v, Legacy(|legacy|, name), legacy, {}, {}, 0, p);
      var b := Replace(cfg, v, Brace(|brace|, "wc." + Strip(name)), brace, {}, {}, 0, p);
      if Entries(cfg.lib, Lower(Strip(name))) != [] then a == b else a == (legacy, p) && b == (brace, p)
  {
    StripTwice(name);
    assert ("wc." + Strip(name))[3..] == Strip(name) && ("wc." + Strip(name))[..3] == "wc.";
    hide Resolve, Strip, Lower, Entries;
  }

  /** The two scans agree, text and draws, exactly when all names met are known. */
  ghost predicate AlikeIff(a: (string, Progress), b: (string, Progress), known: bool) {
    (a.0 == b.0 <==> known) && (known ==> a == b)
  }

  lemma {:induction false} PrependAlike(front: string, a: (string, Progress), b: (string, Progress), known: bool)
    requires AlikeIff(a, b, known)
    ensures AlikeIff(Prepend(front, a), Prepend(front, b), known)
  {
    assert (front + a.0)[|front|..] == a.0 && (front + b.0)[|front|..] == b.0;
  }

  /** The rest of a text and its rewrite are scanned alike. */
  lemma {:induction false} ScansAlike(cfg: Config, v: Values, text: string, i: nat, p: Progress)
    requires cfg.cap > 0 && !cfg.track && i <= |text|
    requires Apart(text, i) && !LegacyRewrite.HasWedge(text, i)
    ensures AlikeIff(Scan(cfg, v, LegacyRewrite.RewriteFrom(text, i), 0, {}, {}, 0, p), Scan(cfg, v, text, i, {}, {}, 0, p),
                     AllKnown(cfg.lib, text, i))
    decreases |text| - i, 1
  {
    hide *;
    LegacyRewrite.RewriteAt(text, i);
    if i == |text| {
      NothingLeft(cfg, v, text, p);
      KnownAtEnd(cfg.lib, text);
    } else {
      ReadOn(cfg.lib, text, i);
      if BraceAt(text, i) {
        BraceAlike(cfg, v, text, i, p);
      } else if LegacyAt(text, i) {
        TokenAlike(cfg, v, text, i, p);
      } else {
        var r := LegacyRewrite.RewriteFrom(text, i + 1);
        CharAlike(text, i);
        ScansAlike(cfg, v, text, i + 1, p);
        ScanShift(cfg, v, [text[i]], r, 0, p);
        ScanOne(cfg, v, text, i, p);
        ScanOne(cfg, v, LegacyRewrite.RewriteFrom(text, i), 0, p);
        PrependAlike([text[i]], Scan(cfg, v, r, 0, {}, {}, 0, p), Scan(cfg, v, text, i + 1, {}, {}, 0, p),
                     AllKnown(cfg.lib, text, i + 1));
      }
    }
  }

  lemma {:induction false} KnownAtEnd(lib: Library, text: string)
    ensures AllKnown(lib, text, |text|)
  {
  }

  lemma {:induction false} BraceAlike(cfg: Config, v: Values, text: string, i: nat, p: Progress)
    requires cfg.cap > 0 && !cfg.track && i < |text| && BraceAt(text, i)
    requires Apart(text, i) && !LegacyRewrite.HasWedge(text, i)
    ensures AlikeIff(Scan(cfg, v, LegacyRewrite.RewriteFrom(text, i), 0, {}, {}, 0, p), Scan(cfg, v, text, i, {}, {}, 0, p),
                     AllKnown(cfg.lib, text, i))
    decreases |text| - i, 0
  {
    hide *;
    ReadOn(cfg.lib, text, i);
    var n := TokenLength(text, i);
    var m, whole, rest := MatchAt(text, i), text[i..i + n], LegacyRewrite.RewriteFrom(text, i + n);
    BraceKept(text, i);
    CopiedRange(text, i, i + n);
    ScanMatch(cfg, v, text, i, m, p);
    ScanMatch(cfg, v, whole + rest, 0, m, p);
    var (value, p1) := Replace(cfg, v, m, whole, {}, {}, 0, p);
    ScansAlike(cfg, v, text, i + n, p1);
    ScanShift(cfg, v, whole, rest, 0, p1);
    PrependAlike(value, Scan(cfg, v, rest, 0, {}, {}, 0, p1), Scan(cfg, v, text, i + n, {}, {}, 0, p1),
                 AllKnown(cfg.lib, text, i + n));
  }

  lemma {:induction false} NothingLeft(cfg: Config, v: Values, text: string, p: Progress)
    requires cfg.cap > 0
    ensures AlikeIff(Scan(cfg, v, "", 0, {}, {}, 0, p), Scan(cfg, v, text, |text|, {}, {}, 0, p), true)
  {
  }

  lemma {:induction false} ScanOne(cfg: Config, v: Values, text: string, i: nat, p: Progress)
    requires cfg.cap > 0 && i < |text| && MatchAt(text, i).NoMatch?
    ensures Scan(cfg, v, text, i, {}, {}, 0, p) == Prepend([text[i]], Scan(cfg, v, text, i + 1, {}, {}, 0, p))
  {
    hide MatchAt;
  }

  lemma {:induction false} CharAlike(text: string, i: nat)
    requires i < |text| && !BraceAt(text, i) && !LegacyAt(text, i) && !LegacyRewrite.Wedge(text, i)
    ensures var r := LegacyRewrite.RewriteFrom(text, i);
      && r == [text[i]] + LegacyRewrite.RewriteFrom(text, i + 1) && r[0] == text[i]
      && MatchAt(text, i).NoMatch? && MatchAt(r, 0).NoMatch?
  {
    LegacyRewrite.RewriteAt(text, i);
    LegacyRewrite.MatchAtStartIsWedge(text, i);
    NoBraceComes(text, i);
    hide LegacyRewrite.RewriteFrom, LegacyAt, BraceAt, BraceRun, LegacyRewrite.Wedge;
  }

  lemma {:induction false} TokenAlike(cfg: Config, v: Values, text: string, i: nat, p: Progress)
    requires cfg.cap > 0 && !cfg.track && i < |text| && LegacyAt(text, i)
    requires Apart(text, i) && !LegacyRewrite.HasWedge(text, i)
    ensures AlikeIff(Scan(cfg, v, LegacyRewrite.RewriteFrom(text, i), 0, {}, {}, 0, p), Scan(cfg, v, text, i, {}, {}, 0, p),
                     AllKnown(cfg.lib, text, i))
    decreases |text| - i, 0
  {
    hide *;
    ReadOn(cfg.lib, text, i);
    var n := LegacyRewrite.MatchLength(text, i);
    var name, whole := LegacyName(text, i), text[i..i + n];
    var token, rest := NewToken(name), LegacyRewrite.RewriteFrom(text, i + n);
    LegacyRewrite.RewriteAt(text, i);
    LegacyMatches(text, i);
    NewMatches(name, rest);
    SameExpansion(cfg, v, name, whole, token, p);
    ScanMatch(cfg, v, text, i, Legacy(n, name), p);
    ScanMatch(cfg, v, token + rest, 0, Brace(|token|, "wc." + Strip(name)), p);
    if Entries(cfg.lib, Lower(Strip(name))) != [] {
      var (value, p1) := Replace(cfg, v, Legacy(n, name), whole, {}, {}, 0, p);
      ScansAlike(cfg, v, text, i + n, p1);
      ScanShift(cfg, v, token, rest, 0, p1);
      PrependAlike(value, Scan(cfg, v, rest, 0, {}, {}, 0, p1), Scan(cfg, v, text, i + n, {}, {}, 0, p1),
                   AllKnown(cfg.lib, text, i + n));
    } else {
      Unlike(whole, token, Scan(cfg, v, text, i + n, {}, {}, 0, p), Scan(cfg, v, token + rest, |token|, {}, {}, 0, p));
    }
  }

  lemma {:induction false} Unlike(whole: string, token: string, a: (string, Progress), b: (string, Progress))
    requires whole != "" && token != "" && whole[0] != token[0]
    ensures AlikeIff(Prepend(token, b), Prepend(whole, a), false)
  {
    assert (whole + a.0)[0] == whole[0] && (token + b.0)[0] == token[0];
  }

  lemma {:induction false} LegacyMatches(text: string, i: nat)
    requires i < |text| && LegacyAt(text, i)
    ensures var n := LegacyRewrite.MatchLength(text, i);
      && MatchAt(text, i) == Legacy(n, LegacyName(text, i)) && |text[i..i + n]| == n > 0 && text[i..i + n][0] == '%'
      && LegacyRewrite.WcToken(LegacyName(text, i)) == NewToken(LegacyName(text, i))
  {
    hide BraceRun, PercentRun, Strip;
  }

  lemma {:induction false} NewMatches(name: string, rest: string)
    requires '{' !in name && '}' !in name
    ensures var token := NewToken(name);
      && MatchAt(token + rest, 0) == Brace(|token|, "wc." + Strip(name)) && (token + rest)[0..|token|] == token
      && |token| > 0 && token[0] == '{'
  {
    NewTokenText(name);
    BraceIn("", "", "wc." + Strip(name), "", rest);
    var token := NewToken(name);
    assert "" + ("{{" + "" + ("wc." + Strip(name)) + "" + "}}") + rest == token + rest;
    hide MatchAt, Strip;
  }

  /** The guard before the pass saves work and decides nothing. */
  lemma {:induction false} GuardIsShortcut(cfg: Config, v: Values, text: string, i: nat, p: Progress)
    requires cfg.cap > 0 && !HasToken(text) && i <= |text|
    ensures Scan(cfg, v, text, i, {}, {}, 0, p) == (text[i..], p)
    decreases |text| - i
  {
    if i < |text| {
      assert MatchAt(text, i).NoMatch?;
      hide HasToken, MatchAt;
      GuardIsShortcut(cfg, v, text, i + 1, p);
      ScanOne(cfg, v, text, i, p);
      assert text[i..] == [text[i]] + text[i + 1..];
    } else {
      assert text[i..] == "";
    }
  }

  lemma {:induction false} RendersByScan(cfg: Config, v: Values, text: string)
    requires cfg.cap > 0
    ensures Render(cfg, v, text) == Scan(cfg, v, text, 0, {}, {}, 0, Progress(0, []))
  {
    if text == "" || !HasToken(text) {
      GuardIsShortcut(cfg, v, text, 0, Progress(0, []));
      assert text[0..] == text;
    }
    hide Scan, HasToken;
  }

  /** When the migration of a text changes what it renders to: a text that keeps the notations
      apart and has no wedge renders to the same text as its rewrite exactly when every legacy name
      the resolver meets is that of a wildcard with entries, and then with the same draws,
      whatever tokens the entries hold. */
  lemma {:induction false} MigratedRendersAlikeIff(cfg: Config, v: Values, text: string)
    requires cfg.cap > 0 && !cfg.track
    requires Apart(text, 0) && !LegacyRewrite.HasWedge(text, 0)
    ensures var (after, before) := (Render(cfg, v, LegacyRewrite.Rewrite(text)), Render(cfg, v, text));
      && (after.0 == before.0 <==> AllKnown(cfg.lib, text, 0))
      && (AllKnown(cfg.lib, text, 0) ==> after == before)
  {
    hide *;
    ScansAlike(cfg, v, text, 0, Progress(0, []));
    RendersByScan(cfg, v, text);
    RendersByScan(cfg, v, LegacyRewrite.Rewrite(text));
    IsRewriteFrom(text);
    AlikeMeans(Render(cfg, v, LegacyRewrite.Rewrite(text)), Render(cfg, v, text), AllKnown(cfg.lib, text, 0));
  }

  lemma {:induction false} AlikeMeans(a: (string, Progress), b: (string, Progress), known: bool)
    requires AlikeIff(a, b, known)
    ensures (a.0 == b.0 <==> known) && (known ==> a == b)
  {
  }

  lemma {:induction false} IsRewriteFrom(text: string)
    ensures LegacyRewrite.Rewrite(text) == LegacyRewrite.RewriteFrom(text, 0)
  {
  }
}
