/** Human-readable ids: `slugify` and `unique_id`. */
module Envelope {
  import opened Decimal
  import opened Prelude

  /** Lower-casing of ASCII letters. */
  function Lower(text: string): (s: string)
    ensures |s| == |text|
  {
    seq(|text|, i requires 0 <= i < |text| =>
      if 'A' <= text[i] <= 'Z' then ((text[i] as int) + 32) as char else text[i])
  }

  predicate IsSlugLetter(c: char) {
    'a' <= c <= 'z' || IsDigit(c)
  }

  /** Every run of other characters becomes one underscore. */
  function CollapseRuns(s: string): string {
    if s == [] then []
    else
      var front := CollapseRuns(s[..|s| - 1]);
      if IsSlugLetter(s[|s| - 1]) then front + [s[|s| - 1]]
      else if front != [] && front[|front| - 1] == '_' then front
      else front + ['_']
  }

  function StripUnderscores(s: string): string
    decreases |s|
  {
    if s != [] && s[0] == '_' then StripUnderscores(s[1..])
    else if s != [] && s[|s| - 1] == '_' then StripUnderscores(s[..|s| - 1])
    else s
  }

  function Slugify(text: string): string {
    var s := StripUnderscores(CollapseRuns(Lower(text)));
    if s == [] then "item" else s
  }

  /** What an id looks like: words of lower-case letters and digits joined by single
      underscores. */
  predicate IsSlug(s: string) {
    && s != [] && s[0] != '_' && s[|s| - 1] != '_'
    && (forall i :: 0 <= i < |s| ==> IsSlugLetter(s[i]) || s[i] == '_')
    && (forall i :: 0 <= i < |s| - 1 ==> s[i] != '_' || s[i + 1] != '_')
  }

  predicate Collapsed(s: string) {
    && (forall i :: 0 <= i < |s| ==> IsSlugLetter(s[i]) || s[i] == '_')
    && (forall i :: 0 <= i < |s| - 1 ==> s[i] != '_' || s[i + 1] != '_')
  }

  lemma {:induction false} CollapseRunsShape(s: string)
    ensures Collapsed(CollapseRuns(s))
    ensures Collapsed(s) ==> CollapseRuns(s) == s
  {
    if s != [] {
      var front := s[..|s| - 1];
      CollapseRunsShape(front);
      if Collapsed(s) {
        assert Collapsed(front) by {
          assert forall i :: 0 <= i < |front| ==> front[i] == s[i];
        }
        if |front| > 0 {
          assert s[|s| - 2] == front[|front| - 1];
        }
      }
    }
  }

  lemma {:induction false} StripShape(s: string)
    requires Collapsed(s)
    ensures var t := StripUnderscores(s); Collapsed(t) && (t == [] || IsSlug(t))
    decreases |s|
  {
    if s != [] && s[0] == '_' {
      assert forall i :: 0 <= i < |s[1..]| ==> s[1..][i] == s[i + 1];
      StripShape(s[1..]);
    } else if s != [] && s[|s| - 1] == '_' {
      assert forall i :: 0 <= i < |s| - 1 ==> s[..|s| - 1][i] == s[i];
      StripShape(s[..|s| - 1]);
    }
  }

  lemma {:induction false} LowerOfSlug(text: string)
    requires IsSlug(text)
    ensures Lower(text) == text
  {
    forall i | 0 <= i < |text|
      ensures Lower(text)[i] == text[i]
    {
      assert IsSlugLetter(text[i]) || text[i] == '_';
    }
  }

  /** Every text yields a well-formed id, and an id is its own slug. */
  lemma {:induction false} SlugifyIsSlug(text: string)
    ensures IsSlug(Slugify(text))
    ensures IsSlug(text) ==> Slugify(text) == text
  {
    var runs := CollapseRuns(Lower(text));
    assert Collapsed(runs) by {
      CollapseRunsShape(Lower(text));
    }
    StripShape(runs);
    if IsSlug(text) {
      LowerOfSlug(text);
      CollapseRunsShape(text);
      assert runs == text;
      assert StripUnderscores(text) == text;
    }
  }

  // ---- what a slug is made of ----

  const UPPER := "ABCDEFGHIJKLMNOPQRSTUVWXYZ"
  const LOWER := "abcdefghijklmnopqrstuvwxyz"

  /** Each capital becomes the small letter at its place in the alphabet; nothing else changes. */
  lemma {:induction false} LowerByAlphabet(text: string, i: nat)
    requires i < |text|
    ensures text[i] in UPPER ==> exists k :: 0 <= k < 26 && text[i] == UPPER[k] && Lower(text)[i] == LOWER[k]
    ensures text[i] !in UPPER ==> Lower(text)[i] == text[i]
  {
    if 'A' <= text[i] <= 'Z' {
      var k := text[i] as int - 'A' as int;
      assert text[i] == UPPER[k] && Lower(text)[i] == LOWER[k];
    } else {
      assert forall k :: 0 <= k < 26 ==> 'A' <= UPPER[k] <= 'Z';
    }
  }

  /** The letters of a slug: the small ones of the alphabet and the ten digits. */
  lemma {:induction false} SlugLetters(c: char)
    ensures IsSlugLetter(c) <==> c in LOWER || c in DIGITS
  {
    DigitsAre(c);
    if 'a' <= c <= 'z' {
      assert LOWER[c as int - 'a' as int] == c;
    } else {
      assert forall k :: 0 <= k < 26 ==> 'a' <= LOWER[k] <= 'z';
    }
  }

  /** Length of the run of letters and digits at the start. */
  function LetterRun(s: string): (n: nat)
    ensures n <= |s| && forall i :: 0 <= i < n ==> IsSlugLetter(s[i])
    ensures n < |s| ==> !IsSlugLetter(s[n])
  {
    if s != "" && IsSlugLetter(s[0]) then
      var n := 1 + LetterRun(s[1..]);
      assert forall i :: 1 <= i < n ==> s[i] == s[1..][i - 1];
      n
    else 0
  }

  /** The words of a text: its longest runs of letters and digits. */
  function SlugWords(s: string): seq<string>
    decreases |s|
  {
    if s == "" then []
    else if LetterRun(s) == 0 then SlugWords(s[1..])
    else [s[..LetterRun(s)]] + SlugWords(s[LetterRun(s)..])
  }

  function JoinWords(words: seq<string>): string {
    if words == [] then "" else if |words| == 1 then words[0] else words[0] + "_" + JoinWords(words[1..])
  }

  /** One more character behind, or in front of, a collapsed text. */
  function Behind(done: string, c: char): string {
    if IsSlugLetter(c) then done + [c] else if done != "" && done[|done| - 1] == '_' then done else done + "_"
  }

  function InFront(c: char, rest: string): string {
    if IsSlugLetter(c) then [c] + rest else if rest != "" && rest[0] == '_' then rest else "_" + rest
  }

  lemma {:induction false} CollapseSnoc(front: string, c: char)
    ensures CollapseRuns(front + [c]) == Behind(CollapseRuns(front), c)
  {
    assert (front + [c])[..|front|] == front;
  }

  lemma {:induction false} BothEnds(c: char, s: string, d: char)
    ensures Behind(InFront(c, s), d) == InFront(c, Behind(s, d))
  {
    if s == "" {
      assert [c] + [d] == [c, d] && "_" + [d] == ['_', d] && [c] + "_" == [c, '_'];
      assert [] + [d] == [d];
    } else {
      assert ([c] + s) + [d] == [c] + (s + [d]);
      assert ("_" + s) + [d] == "_" + (s + [d]);
      assert ([c] + s) + "_" == [c] + (s + "_");
      assert ("_" + s) + "_" == "_" + (s + "_");
    }
  }

  lemma {:induction false} CollapseCons(c: char, s: string)
    ensures CollapseRuns([c] + s) == InFront(c, CollapseRuns(s))
  {
    if s == "" {
      assert [] + [c] == [c] && [c] + s == [c];
      CollapseSnoc([], c);
    } else {
      var front, d := s[..|s| - 1], s[|s| - 1];
      CollapseCons(c, front);
      assert s == front + [d] && [c] + s == ([c] + front) + [d];
      hide *;
      CollapseSnoc([c] + front, d);
      CollapseSnoc(front, d);
      BothEnds(c, CollapseRuns(front), d);
    }
  }

  lemma {:induction false} CollapseWord(s: string)
    ensures CollapseRuns(s) == s[..LetterRun(s)] + CollapseRuns(s[LetterRun(s)..])
    ensures LetterRun(s) < |s| ==> CollapseRuns(s[LetterRun(s)..]) != "" && CollapseRuns(s[LetterRun(s)..])[0] == '_'
  {
    hide CollapseRuns;
    if s != "" {
      assert s == [s[0]] + s[1..];
      CollapseCons(s[0], s[1..]);
      if IsSlugLetter(s[0]) {
        CollapseWord(s[1..]);
        WordCut(s, LetterRun(s[1..]), CollapseRuns(s[LetterRun(s)..]));
      }
    } else {
      assert s[..0] + CollapseRuns(s[0..]) == CollapseRuns(s);
    }
  }

  lemma {:induction false} WordCut(s: string, n: nat, rest: string)
    requires n < |s|
    ensures s[1..][n..] == s[n + 1..] && s[..n + 1] + rest == [s[0]] + (s[1..][..n] + rest)
  {
  }

  lemma {:induction false} NothingToStrip(s: string)
    requires s != "" ==> s[0] != '_' && s[|s| - 1] != '_'
    ensures StripUnderscores(s) == s
  {
  }

  lemma {:induction false} OneToStrip(s: string)
    requires s != "" ==> s[0] != '_'
    ensures StripUnderscores(s + "_") == StripUnderscores(s)
  {
    assert (s + "_")[..|s|] == s;
    assert s == "" ==> (s + "_")[1..] == s;
  }

  lemma {:induction false} StripBehind(word: string, rest: string)
    requires word != "" && '_' !in word && Collapsed(rest) && (rest != "" ==> rest[0] == '_')
    ensures var inner := StripUnderscores(rest);
      StripUnderscores(word + rest) == if inner == "" then word else word + "_" + inner
  {
    assert word[0] in word && word[|word| - 1] in word;
    if rest == "" {
      assert word + rest == word;
      NothingToStrip(word);
    } else {
      var y := rest[1..];
      assert rest == "_" + y && word + rest == word + "_" + y;
      assert StripUnderscores(rest) == StripUnderscores(y);
      assert y != "" ==> rest[1] != '_';
      StripMiddle(word, y);
    }
  }

  lemma {:induction false} StripMiddle(word: string, y: string)
    requires word != "" && word[0] != '_' && word[|word| - 1] != '_'
    requires y != "" ==> y[0] != '_'
    requires |y| > 1 && y[|y| - 1] == '_' ==> y[|y| - 2] != '_'
    ensures var inner := StripUnderscores(y);
      StripUnderscores(word + "_" + y) == if inner == "" then word else word + "_" + inner
  {
    hide StripUnderscores;
    if y == "" {
      assert word + "_" + y == word + "_";
      NothingToStrip(y);
      OneToStrip(word);
      NothingToStrip(word);
    } else if y[|y| - 1] == '_' {
      var z := y[..|y| - 1];
      assert y == z + "_" && word + "_" + y == (word + "_" + z) + "_";
      OneToStrip(z);
      NothingToStrip(z);
      OneToStrip(word + "_" + z);
      NothingToStrip(word + "_" + z);
    } else {
      NothingToStrip(y);
      NothingToStrip(word + "_" + y);
    }
  }

  lemma {:induction false} StripOfWords(s: string)
    ensures StripUnderscores(CollapseRuns(s)) == JoinWords(SlugWords(s))
    ensures SlugWords(s) != [] ==> JoinWords(SlugWords(s)) != ""
    decreases |s|
  {
    if s != "" {
      var n := LetterRun(s);
      CollapseWord(s);
      if n == 0 {
        assert s == [s[0]] + s[1..];
        CollapseCons(s[0], s[1..]);
        StripOfWords(s[1..]);
        var rest := CollapseRuns(s[1..]);
        assert ("_" + rest)[1..] == rest;
      } else {
        var word, rest := s[..n], CollapseRuns(s[n..]);
        StripOfWords(s[n..]);
        CollapseRunsShape(s[n..]);
        WordIsPlain(s, n);
        assert n == |s| ==> rest == "";
        StripBehind(word, rest);
        hide *;
        var words := SlugWords(s[n..]);
        assert ([word] + words)[1..] == words;
      }
    }
  }

  lemma {:induction false} WordIsPlain(s: string, n: nat)
    requires n <= |s| && forall i :: 0 <= i < n ==> IsSlugLetter(s[i])
    ensures '_' !in s[..n]
  {
  }

  /** The slug of a text: its words in lower case, joined by underscores; `item` without any. */
  lemma {:induction false} SlugifyJoinsWords(text: string)
    ensures Slugify(text) == if SlugWords(Lower(text)) == [] then "item" else JoinWords(SlugWords(Lower(text)))
  {
    StripOfWords(Lower(text));
  }

  /** A numbered variant of `base`: `base_2` for ids, `base (2)` for names. */
  function Numbered(base: string, open: string, close: string, n: nat): string {
    base + open + Numeral(n) + close
  }

  lemma {:induction false} NumberedInjective(base: string, open: string, close: string, m: nat, n: nat)
    requires Numbered(base, open, close, m) == Numbered(base, open, close, n)
    ensures m == n
  {
    var s, t := Numbered(base, open, close, m), Numbered(base, open, close, n);
    var at := |base| + |open|;
    assert s[at..|s| - |close|] == Numeral(m);
    assert t[at..|t| - |close|] == Numeral(n);
    ValueOfNumeral(m);
    ValueOfNumeral(n);
  }

  ghost predicate TakenBelow(base: string, open: string, close: string, taken: set<string>, n: int) {
    forall k :: 2 <= k < n ==> Numbered(base, open, close, k) in taken
  }

  /** `n - 2` numbered variants are taken, so the search ends after at most |taken| tries. */
  lemma {:induction false} TriesBounded(base: string, open: string, close: string, taken: set<string>, n: nat)
    requires n >= 2 && TakenBelow(base, open, close, taken, n)
    ensures n - 2 <= |taken|
  {
    var tries := seq(n - 2, i requires 0 <= i < n - 2 => Numbered(base, open, close, i + 2));
    forall i, j | 0 <= i < j < |tries|
      ensures tries[i] != tries[j]
    {
      if tries[i] == tries[j] {
        NumberedInjective(base, open, close, i + 2, j + 2);
      }
    }
    DistinctLength(tries, taken);
  }

  /** The least free number from `n` on. */
  ghost function LeastFree(base: string, open: string, close: string, taken: set<string>, n: nat): (k: nat)
    requires n >= 2 && TakenBelow(base, open, close, taken, n)
    ensures k >= n && Numbered(base, open, close, k) !in taken && TakenBelow(base, open, close, taken, k)
    decreases |taken| + 2 - n
  {
    TriesBounded(base, open, close, taken, n);
    if Numbered(base, open, close, n) !in taken then n
    else
      TriesBounded(base, open, close, taken, n + 1);
      LeastFree(base, open, close, taken, n + 1)
  }

  /** `base` when it is free, else its free variant of least number from 2 on. */
  ghost function FreeVariant(base: string, open: string, close: string, taken: set<string>): (id: string)
    ensures id !in taken
    ensures base !in taken ==> id == base
    ensures base in taken ==> exists n :: n >= 2 && id == Numbered(base, open, close, n) && TakenBelow(base, open, close, taken, n)
  {
    if base !in taken then base
    else Numbered(base, open, close, LeastFree(base, open, close, taken, 2))
  }

  ghost function FreshId(base: string, taken: set<string>): (id: string)
    ensures id !in taken
  {
    FreeVariant(base, "_", "", taken)
  }

  /** `base` when it is free, else `base`, the separator and the least number from 2 on that
      gives something free. */
  ghost predicate IsFreeVariant(base: string, open: string, close: string, taken: set<string>, id: string) {
    if base !in taken then id == base
    else exists n: nat :: n >= 2 && id == base + open + Numeral(n) + close && id !in taken
                          && forall k: nat :: 2 <= k < n ==> base + open + Numeral(k) + close in taken
  }

  lemma {:induction false} FreeVariantIs(base: string, open: string, close: string, taken: set<string>)
    ensures IsFreeVariant(base, open, close, taken, FreeVariant(base, open, close, taken))
  {
    if base in taken {
      var n: nat := LeastFree(base, open, close, taken, 2);
      assert TakenBelow(base, open, close, taken, n);
      forall k: nat | 2 <= k < n
        ensures base + open + Numeral(k) + close in taken
      {
        assert Numbered(base, open, close, k) in taken;
      }
      assert Numbered(base, open, close, n) !in taken;
    }
  }

  lemma {:induction false} LeastFreeStep(base: string, open: string, close: string, taken: set<string>, n: nat)
    requires n >= 2 && TakenBelow(base, open, close, taken, n)
    ensures LeastFree(base, open, close, taken, 2) >= n
    ensures Numbered(base, open, close, n) !in taken ==> LeastFree(base, open, close, taken, 2) == n
  {
  }

  /** The loop terminates whatever ids are taken. */
  method UniqueId(base: string, taken: set<string>) returns (id: string)
    ensures id == FreshId(base, taken) && IsFreeVariant(base, "_", "", taken, id)
  {
    FreeVariantIs(base, "_", "", taken);
    if base !in taken {
      return base;
    }
    var n := 2;
    while Numbered(base, "_", "", n) in taken
      invariant n >= 2 && TakenBelow(base, "_", "", taken, n)
      invariant n - 2 <= |taken|
      decreases |taken| + 2 - n
    {
      n := n + 1;
      TriesBounded(base, "_", "", taken, n);
    }
    LeastFreeStep(base, "_", "", taken, n);
    return Numbered(base, "_", "", n);
  }
}
