/** The prompt resolver: one pass over the text, in which library texts are expanded again and
    runtime values are not. */
module PromptTemplate {
  import opened Prelude
  import opened Tokens
  import opened Envelope
  import opened Decimal

  const MAX_DEPTH := 16

  datatype Item = Item(id: string, content: string)

  /** The author-controlled libraries: entry texts by lower-cased wildcard name, context items
      by slug and lower-cased name. */
  datatype Library = Library(wildcards: map<string, seq<string>>, contexts: map<string, Item>)

  /** The runtime data of one rendering. */
  datatype Values = Values(
    input: string,
    previous: string,
    context: string,
    stepIndex: int,
    stepName: string,
    extra: map<string, string>,
    stepInputs: map<int, seq<string>>,
    stepOutputs: map<int, seq<string>>,
    variables: map<string, string>)

  /** Which names are in scope: all of the runtime data the expansion itself may depend on. */
  datatype Scope = Scope(extra: set<string>, variables: set<string>)

  function ScopeOf(v: Values): Scope {
    Scope(v.extra.Keys, v.variables.Keys)
  }

  /** Everything fixed during a rendering but the runtime data: `draws` is the stream of random
      picks, `cap` the recursion limit. */
  datatype Config = Config(lib: Library, draws: nat -> nat, final: bool, track: bool, cap: nat)

  datatype Substitution = Substitution(token: string, value: string)

  /** How many picks were drawn and what was tracked so far. */
  datatype Progress = Progress(drawn: nat, subs: seq<Substitution>)

  // ---- runtime values ----

  /** The places a runtime value can go. */
  datatype Hole =
    | Input | Previous | Context | StepIndex | StepName
    | Extra(name: string) | StepInput(number: nat) | StepOutput(number: nat) | Variable(name: string)

  function ValueOf(h: Hole, v: Values): string {
    match h
    case Input => v.input
    case Previous => v.previous
    case Context => v.context
    case StepIndex => Padded(v.stepIndex, 0)
    case StepName => v.stepName
    case Extra(name) => if name in v.extra then v.extra[name] else ""
    case StepInput(n) => NewestOf(v.stepInputs, n)
    case StepOutput(n) => NewestOf(v.stepOutputs, n)
    case Variable(name) => if name in v.variables then v.variables[name] else ""
  }

  /** `(\d+)_(input|output)` */
  function NumberedToken(token: string): Option<Hole> {
    if |token| > 6 && token[|token| - 6..] == "_input" && AllDigits(token[..|token| - 6]) then
      Some(StepInput(Value(token[..|token| - 6])))
    else if |token| > 7 && token[|token| - 7..] == "_output" && AllDigits(token[..|token| - 7]) then
      Some(StepOutput(Value(token[..|token| - 7])))
    else None
  }

  /** `_chain_token`: which runtime value the token names, given the names in scope. */
  function ChainToken(token: string, scope: Scope): Option<Hole> {
    if token == "input" then Some(Input)
    else if token == "previous" then Some(Previous)
    else if token == "context" then Some(Context)
    else if token == "step_index" then Some(StepIndex)
    else if token == "step_name" then Some(StepName)
    else if token in scope.extra then Some(Extra(token))
    else NumberedToken(token)
  }

  // ---- the resolver ----

  function Tracked(cfg: Config, token: string, value: string, p: Progress): (string, Progress) {
    (value, if cfg.track then p.(subs := p.subs + [Substitution(token, value)]) else p)
  }

  predicate StartsWith(s: string, prefix: string) {
    |prefix| <= |s| && s[..|prefix|] == prefix
  }

  function Entries(lib: Library, key: string): seq<string> {
    if key in lib.wildcards then lib.wildcards[key] else []
  }

  function FindItem(lib: Library, key: string): Option<Item> {
    if key in lib.contexts then Some(lib.contexts[key])
    else if Lower(key) in lib.contexts then Some(lib.contexts[Lower(key)])
    else None
  }

  function SlugOf(item: Item, key: string): string {
    if item.id == "" then key else item.id
  }

  predicate HasToken(text: string) {
    exists i :: 0 <= i < |text| && (PairAt(text, i, '{') || PairAt(text, i, '%'))
  }

  /** `_resolve` */
  function Resolve(cfg: Config, v: Values, text: string, wcSeen: set<string>, ctxSeen: set<string>, depth: nat,
                   p: Progress): (string, Progress)
    decreases if depth < cfg.cap then cfg.cap - depth else 0, |text| + 2
  {
    if text == "" || depth >= cfg.cap || !HasToken(text) then (text, p)
    else Scan(cfg, v, text, 0, wcSeen, ctxSeen, depth, p)
  }

  /** The substitution pass over the rest of `text` from `i` on. */
  function Scan(cfg: Config, v: Values, text: string, i: nat, wcSeen: set<string>, ctxSeen: set<string>, depth: nat,
                p: Progress): (string, Progress)
    requires i <= |text| && depth < cfg.cap
    decreases cfg.cap - depth, |text| - i + 1
  {
    if i == |text| then ("", p)
    else
      var m := MatchAt(text, i);
      if m.NoMatch? then
        var (rest, p1) := Scan(cfg, v, text, i + 1, wcSeen, ctxSeen, depth, p);
        ([text[i]] + rest, p1)
      else
        var (value, p1) := Replace(cfg, v, m, text[i..i + m.length], wcSeen, ctxSeen, depth, p);
        var (rest, p2) := Scan(cfg, v, text, i + m.length, wcSeen, ctxSeen, depth, p1);
        (value + rest, p2)
  }

  /** The replacement of one match. */
  function Replace(cfg: Config, v: Values, m: Match, whole: string, wcSeen: set<string>, ctxSeen: set<string>,
                   depth: nat, p: Progress): (string, Progress)
    requires !m.NoMatch? && depth < cfg.cap
    decreases cfg.cap - depth, 0, 1
  {
    if m.Legacy? then ExpandWc(cfg, v, m.name, whole, wcSeen, ctxSeen, depth, p)
    else if StartsWith(m.token, "wc.") then ExpandWc(cfg, v, m.token[3..], whole, wcSeen, ctxSeen, depth, p)
    else if StartsWith(m.token, "var.") then ExpandVar(cfg, v, m.token[4..], whole, p)
    else if StartsWith(m.token, "ctx.") then ExpandCtx(cfg, v, m.token[4..], whole, wcSeen, ctxSeen, depth, p)
    else
      var hole := ChainToken(m.token, ScopeOf(v));
      if hole.Some? then Tracked(cfg, whole, ValueOf(hole.value, v), p)
      else if cfg.final then Tracked(cfg, whole, "", p)
      else (whole, p)
  }

  function ExpandWc(cfg: Config, v: Values, name: string, whole: string, wcSeen: set<string>, ctxSeen: set<string>,
                    depth: nat, p: Progress): (string, Progress)
    requires depth < cfg.cap
    decreases cfg.cap - depth, 0, 0
  {
    var key := Lower(Strip(name));
    var entries := Entries(cfg.lib, key);
    if entries == [] || key in wcSeen then (whole, p)
    else
      var (value, p1) := Resolve(cfg, v, entries[cfg.draws(p.drawn) % |entries|], wcSeen + {key}, ctxSeen, depth + 1,
                                 p.(drawn := p.drawn + 1));
      Tracked(cfg, whole, value, p1)
  }

  function ExpandVar(cfg: Config, v: Values, name: string, whole: string, p: Progress): (string, Progress) {
    var key := Strip(name);
    if key in v.variables then Tracked(cfg, whole, v.variables[key], p)
    else if cfg.final then Tracked(cfg, whole, key, p)
    else (whole, p)
  }

  function ExpandCtx(cfg: Config, v: Values, name: string, whole: string, wcSeen: set<string>, ctxSeen: set<string>,
                     depth: nat, p: Progress): (string, Progress)
    requires depth < cfg.cap
    decreases cfg.cap - depth, 0, 0
  {
    var key := Strip(name);
    var item := FindItem(cfg.lib, key);
    if item.None? then (if cfg.final then Tracked(cfg, whole, key, p) else (whole, p))
    else
      var slug := SlugOf(item.value, key);
      if slug in ctxSeen then (whole, p)
      else
        var (value, p1) := Resolve(cfg, v, item.value.content, wcSeen, ctxSeen + {slug}, depth + 1, p);
        Tracked(cfg, whole, value, p1)
  }

  /** `render` */
  function Render(cfg: Config, v: Values, template: string): (string, Progress) {
    Resolve(cfg, v, template, {}, {}, 0, Progress(0, []))
  }

  // ---- skeletons: the same pass without any runtime value ----

  datatype Piece = Lit(text: string) | Fill(hole: Hole)

  type Skeleton = seq<Piece>

  datatype SkeletonSub = SkeletonSub(token: string, value: Skeleton)

  datatype SkeletonProgress = SkeletonProgress(drawn: nat, subs: seq<SkeletonSub>)

  /** A skeleton with its holes filled: one pass, nothing is looked at again. */
  function Filled(s: Skeleton, v: Values): string {
    if s == [] then ""
    else (match s[0] case Lit(text) => text case Fill(h) => ValueOf(h, v)) + Filled(s[1..], v)
  }

  function FilledSubs(subs: seq<SkeletonSub>, v: Values): (r: seq<Substitution>)
    ensures |r| == |subs|
  {
    seq(|subs|, i requires 0 <= i < |subs| => Substitution(subs[i].token, Filled(subs[i].value, v)))
  }

  function FilledProgress(p: SkeletonProgress, v: Values): Progress {
    Progress(p.drawn, FilledSubs(p.subs, v))
  }

  function SkTracked(cfg: Config, token: string, value: Skeleton, p: SkeletonProgress): (Skeleton, SkeletonProgress) {
    (value, if cfg.track then p.(subs := p.subs + [SkeletonSub(token, value)]) else p)
  }

  function SkResolve(cfg: Config, scope: Scope, text: string, wcSeen: set<string>, ctxSeen: set<string>, depth: nat,
                     p: SkeletonProgress): (Skeleton, SkeletonProgress)
    decreases if depth < cfg.cap then cfg.cap - depth else 0, |text| + 2
  {
    if text == "" || depth >= cfg.cap || !HasToken(text) then ([Lit(text)], p)
    else SkScan(cfg, scope, text, 0, wcSeen, ctxSeen, depth, p)
  }

  function SkScan(cfg: Config, scope: Scope, text: string, i: nat, wcSeen: set<string>, ctxSeen: set<string>,
                  depth: nat, p: SkeletonProgress): (Skeleton, SkeletonProgress)
    requires i <= |text| && depth < cfg.cap
    decreases cfg.cap - depth, |text| - i + 1
  {
    if i == |text| then ([], p)
    else
      var m := MatchAt(text, i);
      if m.NoMatch? then
        var (rest, p1) := SkScan(cfg, scope, text, i + 1, wcSeen, ctxSeen, depth, p);
        ([Lit([text[i]])] + rest, p1)
      else
        var (value, p1) := SkReplace(cfg, scope, m, text[i..i + m.length], wcSeen, ctxSeen, depth, p);
        var (rest, p2) := SkScan(cfg, scope, text, i + m.length, wcSeen, ctxSeen, depth, p1);
        (value + rest, p2)
  }

  function SkReplace(cfg: Config, scope: Scope, m: Match, whole: string, wcSeen: set<string>, ctxSeen: set<string>,
                     depth: nat, p: SkeletonProgress): (Skeleton, SkeletonProgress)
    requires !m.NoMatch? && depth < cfg.cap
    decreases cfg.cap - depth, 0, 1
  {
    if m.Legacy? then SkExpandWc(cfg, scope, m.name, whole, wcSeen, ctxSeen, depth, p)
    else if StartsWith(m.token, "wc.") then SkExpandWc(cfg, scope, m.token[3..], whole, wcSeen, ctxSeen, depth, p)
    else if StartsWith(m.token, "var.") then SkExpandVar(cfg, scope, m.token[4..], whole, p)
    else if StartsWith(m.token, "ctx.") then SkExpandCtx(cfg, scope, m.token[4..], whole, wcSeen, ctxSeen, depth, p)
    else
      var hole := ChainToken(m.token, scope);
      if hole.Some? then SkTracked(cfg, whole, [Fill(hole.value)], p)
      else if cfg.final then SkTracked(cfg, whole, [], p)
      else ([Lit(whole)], p)
  }

  function SkExpandWc(cfg: Config, scope: Scope, name: string, whole: string, wcSeen: set<string>,
                      ctxSeen: set<string>, depth: nat, p: SkeletonProgress): (Skeleton, SkeletonProgress)
    requires depth < cfg.cap
    decreases cfg.cap - depth, 0, 0
  {
    var key := Lower(Strip(name));
    var entries := Entries(cfg.lib, key);
    if entries == [] || key in wcSeen then ([Lit(whole)], p)
    else
      var (value, p1) := SkResolve(cfg, scope, entries[cfg.draws(p.drawn) % |entries|], wcSeen + {key}, ctxSeen,
                                   depth + 1, p.(drawn := p.drawn + 1));
      SkTracked(cfg, whole, value, p1)
  }

  function SkExpandVar(cfg: Config, scope: Scope, name: string, whole: string, p: SkeletonProgress): (Skeleton, SkeletonProgress) {
    var key := Strip(name);
    if key in scope.variables then SkTracked(cfg, whole, [Fill(Variable(key))], p)
    else if cfg.final then SkTracked(cfg, whole, [Lit(key)], p)
    else ([Lit(whole)], p)
  }

  function SkExpandCtx(cfg: Config, scope: Scope, name: string, whole: string, wcSeen: set<string>,
                       ctxSeen: set<string>, depth: nat, p: SkeletonProgress): (Skeleton, SkeletonProgress)
    requires depth < cfg.cap
    decreases cfg.cap - depth, 0, 0
  {
    var key := Strip(name);
    var item := FindItem(cfg.lib, key);
    if item.None? then (if cfg.final then SkTracked(cfg, whole, [Lit(key)], p) else ([Lit(whole)], p))
    else
      var slug := SlugOf(item.value, key);
      if slug in ctxSeen then ([Lit(whole)], p)
      else
        var (value, p1) := SkResolve(cfg, scope, item.value.content, wcSeen, ctxSeen + {slug}, depth + 1, p);
        SkTracked(cfg, whole, value, p1)
  }

  // ---- non-interference ----

  lemma {:induction false} FilledAppend(a: Skeleton, b: Skeleton, v: Values)
    ensures Filled(a + b, v) == Filled(a, v) + Filled(b, v)
  {
    if a == [] {
      assert a + b == b;
    } else {
      assert (a + b)[1..] == a[1..] + b;
      FilledAppend(a[1..], b, v);
    }
  }

  lemma {:induction false} FilledOne(x: Piece, v: Values)
    ensures Filled([x], v) == (match x case Lit(text) => text case Fill(h) => ValueOf(h, v))
  {
    assert [x][1..] == [];
  }

  /** The pair of a text and its progress is the filled skeleton pair. */
  ghost predicate Agree(r: (string, Progress), k: (Skeleton, SkeletonProgress), v: Values) {
    r.0 == Filled(k.0, v) && r.1 == FilledProgress(k.1, v)
  }

  lemma {:induction false} TrackedAgree(cfg: Config, v: Values, token: string, s: Skeleton, p: SkeletonProgress)
    ensures Agree(Tracked(cfg, token, Filled(s, v), FilledProgress(p, v)), SkTracked(cfg, token, s, p), v)
  {
    assert FilledSubs(p.subs + [SkeletonSub(token, s)], v)
        == FilledSubs(p.subs, v) + [Substitution(token, Filled(s, v))];
  }

  lemma {:induction false} ResolveAgrees(cfg: Config, v: Values, text: string, wcSeen: set<string>, ctxSeen: set<string>,
                                         depth: nat, p: SkeletonProgress)
    ensures Agree(Resolve(cfg, v, text, wcSeen, ctxSeen, depth, FilledProgress(p, v)),
                  SkResolve(cfg, ScopeOf(v), text, wcSeen, ctxSeen, depth, p), v)
    decreases if depth < cfg.cap then cfg.cap - depth else 0, |text| + 2
  {
    if text == "" || depth >= cfg.cap || !HasToken(text) {
      FilledOne(Lit(text), v);
    } else {
      ScanAgrees(cfg, v, text, 0, wcSeen, ctxSeen, depth, p);
    }
  }

  lemma {:induction false} ScanAgrees(cfg: Config, v: Values, text: string, i: nat, wcSeen: set<string>,
                                      ctxSeen: set<string>, depth: nat, p: SkeletonProgress)
    requires i <= |text| && depth < cfg.cap
    ensures Agree(Scan(cfg, v, text, i, wcSeen, ctxSeen, depth, FilledProgress(p, v)),
                  SkScan(cfg, ScopeOf(v), text, i, wcSeen, ctxSeen, depth, p), v)
    decreases cfg.cap - depth, |text| - i + 1
  {
    hide FilledProgress, Filled, Replace, SkReplace, MatchAt;
    if i == |text| {
      FilledEmpty(v);
    } else {
      var m := MatchAt(text, i);
      var scope := ScopeOf(v);
      if m.NoMatch? {
        ScanAgrees(cfg, v, text, i + 1, wcSeen, ctxSeen, depth, p);
        var rest := SkScan(cfg, scope, text, i + 1, wcSeen, ctxSeen, depth, p).0;
        FilledOne(Lit([text[i]]), v);
        FilledAppend([Lit([text[i]])], rest, v);
      } else {
        var whole := text[i..i + m.length];
        ReplaceAgrees(cfg, v, m, whole, wcSeen, ctxSeen, depth, p);
        var (value, p1) := SkReplace(cfg, scope, m, whole, wcSeen, ctxSeen, depth, p);
        ScanAgrees(cfg, v, text, i + m.length, wcSeen, ctxSeen, depth, p1);
        FilledAppend(value, SkScan(cfg, scope, text, i + m.length, wcSeen, ctxSeen, depth, p1).0, v);
      }
    }
  }

  lemma {:induction false} FilledEmpty(v: Values)
    ensures Filled([], v) == ""
  {
  }

  lemma {:induction false} ReplaceAgrees(cfg: Config, v: Values, m: Match, whole: string, wcSeen: set<string>,
                                         ctxSeen: set<string>, depth: nat, p: SkeletonProgress)
    requires !m.NoMatch? && depth < cfg.cap
    ensures Agree(Replace(cfg, v, m, whole, wcSeen, ctxSeen, depth, FilledProgress(p, v)),
                  SkReplace(cfg, ScopeOf(v), m, whole, wcSeen, ctxSeen, depth, p), v)
    decreases cfg.cap - depth, 0, 1
  {
    hide FilledProgress, Filled, Tracked, SkTracked, ExpandWc, SkExpandWc, ExpandCtx, SkExpandCtx, ExpandVar, SkExpandVar,
      ChainToken, ValueOf;
    if m.Legacy? {
      WcAgrees(cfg, v, m.name, whole, wcSeen, ctxSeen, depth, p);
    } else if StartsWith(m.token, "wc.") {
      WcAgrees(cfg, v, m.token[3..], whole, wcSeen, ctxSeen, depth, p);
    } else if StartsWith(m.token, "var.") {
      VarAgrees(cfg, v, m.token[4..], whole, p);
    } else if StartsWith(m.token, "ctx.") {
      CtxAgrees(cfg, v, m.token[4..], whole, wcSeen, ctxSeen, depth, p);
    } else {
      var hole := ChainToken(m.token, ScopeOf(v));
      if hole.Some? {
        FilledOne(Fill(hole.value), v);
        TrackedAgree(cfg, v, whole, [Fill(hole.value)], p);
      } else if cfg.final {
        FilledEmpty(v);
        TrackedAgree(cfg, v, whole, [], p);
      } else {
        FilledOne(Lit(whole), v);
      }
    }
  }

  lemma {:induction false} WcAgrees(cfg: Config, v: Values, name: string, whole: string, wcSeen: set<string>,
                                    ctxSeen: set<string>, depth: nat, p: SkeletonProgress)
    requires depth < cfg.cap
    ensures Agree(ExpandWc(cfg, v, name, whole, wcSeen, ctxSeen, depth, FilledProgress(p, v)),
                  SkExpandWc(cfg, ScopeOf(v), name, whole, wcSeen, ctxSeen, depth, p), v)
    decreases cfg.cap - depth, 0, 0
  {
    hide Filled, Tracked, SkTracked, Resolve, SkResolve, FilledSubs;
    var key := Lower(Strip(name));
    var entries := Entries(cfg.lib, key);
    if entries == [] || key in wcSeen {
      FilledOne(Lit(whole), v);
    } else {
      var picked, drawn := entries[cfg.draws(p.drawn) % |entries|], p.(drawn := p.drawn + 1);
      ResolveAgrees(cfg, v, picked, wcSeen + {key}, ctxSeen, depth + 1, drawn);
      var (value, p1) := SkResolve(cfg, ScopeOf(v), picked, wcSeen + {key}, ctxSeen, depth + 1, drawn);
      TrackedAgree(cfg, v, whole, value, p1);
    }
  }

  lemma {:induction false} VarAgrees(cfg: Config, v: Values, name: string, whole: string, p: SkeletonProgress)
    ensures Agree(ExpandVar(cfg, v, name, whole, FilledProgress(p, v)),
                  SkExpandVar(cfg, ScopeOf(v), name, whole, p), v)
  {
    var key := Strip(name);
    FilledOne(Fill(Variable(key)), v);
    FilledOne(Lit(key), v);
    FilledOne(Lit(whole), v);
    TrackedAgree(cfg, v, whole, [Fill(Variable(key))], p);
    TrackedAgree(cfg, v, whole, [Lit(key)], p);
  }

  lemma {:induction false} CtxAgrees(cfg: Config, v: Values, name: string, whole: string, wcSeen: set<string>,
                                     ctxSeen: set<string>, depth: nat, p: SkeletonProgress)
    requires depth < cfg.cap
    ensures Agree(ExpandCtx(cfg, v, name, whole, wcSeen, ctxSeen, depth, FilledProgress(p, v)),
                  SkExpandCtx(cfg, ScopeOf(v), name, whole, wcSeen, ctxSeen, depth, p), v)
    decreases cfg.cap - depth, 0, 0
  {
    hide Filled, Tracked, SkTracked, Resolve, SkResolve, FilledSubs, FilledProgress;
    var key := Strip(name);
    FilledOne(Lit(whole), v);
    FilledOne(Lit(key), v);
    var item := FindItem(cfg.lib, key);
    if item.None? {
      TrackedAgree(cfg, v, whole, [Lit(key)], p);
    } else {
      var slug := SlugOf(item.value, key);
      if slug !in ctxSeen {
        ResolveAgrees(cfg, v, item.value.content, wcSeen, ctxSeen + {slug}, depth + 1, p);
        var (value, p1) := SkResolve(cfg, ScopeOf(v), item.value.content, wcSeen, ctxSeen + {slug}, depth + 1, p);
        TrackedAgree(cfg, v, whole, value, p1);
      }
    }
  }

  ghost predicate IsSkeletonFor(cfg: Config, template: string, scope: Scope, k: (Skeleton, SkeletonProgress)) {
    forall v | ScopeOf(v) == scope :: Agree(Render(cfg, v, template), k, v)
  }

  /** Non-interference: for a fixed template, libraries, draws and names in scope there is one
      skeleton of literals and holes such that every rendering is that skeleton with its holes
      filled. The runtime data decides neither which tokens are expanded, nor how many picks
      are drawn, nor which tokens are tracked. */
  lemma {:induction false} NonInterference(cfg: Config, template: string, scope: Scope)
    ensures exists k :: IsSkeletonFor(cfg, template, scope, k)
  {
    var k := SkResolve(cfg, scope, template, {}, {}, 0, SkeletonProgress(0, []));
    forall v | ScopeOf(v) == scope
      ensures Agree(Render(cfg, v, template), k, v)
    {
      ResolveAgrees(cfg, v, template, {}, {}, 0, SkeletonProgress(0, []));
      assert FilledSubs([], v) == [];
    }
    assert IsSkeletonFor(cfg, template, scope, k);
  }

  // ---- the recursion limit ----

  /** The wildcards that can be expanded at all. */
  function ActiveWildcards(lib: Library): set<string> {
    set k | k in lib.wildcards && lib.wildcards[k] != []
  }

  function Slugs(lib: Library): set<string> {
    set k | k in lib.contexts :: lib.contexts[k].id
  }

  /** Every context item carries an id, as the context store assigns one to each. */
  predicate Identified(lib: Library) {
    forall k :: k in lib.contexts ==> lib.contexts[k].id != ""
  }

  function NameCount(lib: Library): nat {
    |ActiveWildcards(lib)| + |Slugs(lib)|
  }

  /** The two visited sets of a call: names of the library, as many in all as the depth. */
  ghost predicate OnPath(lib: Library, wcSeen: set<string>, ctxSeen: set<string>, depth: nat) {
    wcSeen <= ActiveWildcards(lib) && ctxSeen <= Slugs(lib) && depth == |wcSeen| + |ctxSeen|
  }

  lemma {:induction false} SubsetSize(a: set<string>, b: set<string>)
    requires a <= b
    ensures |a| <= |b|
  {
    assert |b| == |a| + |b - a| by {
      assert b == a + (b - a);
    }
  }

  lemma {:induction false} DepthBounded(lib: Library, wcSeen: set<string>, ctxSeen: set<string>, depth: nat)
    requires OnPath(lib, wcSeen, ctxSeen, depth)
    ensures depth <= NameCount(lib)
  {
    SubsetSize(wcSeen, ActiveWildcards(lib));
    SubsetSize(ctxSeen, Slugs(lib));
  }

  lemma {:induction false} ResolveCapFree(cfg: Config, cap: nat, v: Values, text: string, wcSeen: set<string>,
                                          ctxSeen: set<string>, depth: nat, p: Progress)
    requires Identified(cfg.lib) && cfg.cap > NameCount(cfg.lib) && cap > NameCount(cfg.lib)
    requires OnPath(cfg.lib, wcSeen, ctxSeen, depth)
    ensures Resolve(cfg.(cap := cap), v, text, wcSeen, ctxSeen, depth, p) == Resolve(cfg, v, text, wcSeen, ctxSeen, depth, p)
    decreases NameCount(cfg.lib) + 1 - depth, |text| + 2
  {
    DepthBounded(cfg.lib, wcSeen, ctxSeen, depth);
    if text != "" && HasToken(text) {
      ScanCapFree(cfg, cap, v, text, 0, wcSeen, ctxSeen, depth, p);
    }
  }

  lemma {:induction false} ScanCapFree(cfg: Config, cap: nat, v: Values, text: string, i: nat, wcSeen: set<string>,
                                       ctxSeen: set<string>, depth: nat, p: Progress)
    requires Identified(cfg.lib) && cfg.cap > NameCount(cfg.lib) && cap > NameCount(cfg.lib)
    requires OnPath(cfg.lib, wcSeen, ctxSeen, depth) && i <= |text| && depth <= NameCount(cfg.lib)
    ensures Scan(cfg.(cap := cap), v, text, i, wcSeen, ctxSeen, depth, p) == Scan(cfg, v, text, i, wcSeen, ctxSeen, depth, p)
    decreases NameCount(cfg.lib) + 1 - depth, |text| - i + 1
  {
    hide MatchAt, Replace, OnPath, NameCount, Identified;
    if i < |text| {
      var m := MatchAt(text, i);
      if m.NoMatch? {
        ScanCapFree(cfg, cap, v, text, i + 1, wcSeen, ctxSeen, depth, p);
      } else {
        var whole := text[i..i + m.length];
        ReplaceCapFree(cfg, cap, v, m, whole, wcSeen, ctxSeen, depth, p);
        var p1 := Replace(cfg, v, m, whole, wcSeen, ctxSeen, depth, p).1;
        ScanCapFree(cfg, cap, v, text, i + m.length, wcSeen, ctxSeen, depth, p1);
      }
    }
  }

  lemma {:induction false} ReplaceCapFree(cfg: Config, cap: nat, v: Values, m: Match, whole: string,
                                          wcSeen: set<string>, ctxSeen: set<string>, depth: nat, p: Progress)
    requires Identified(cfg.lib) && cfg.cap > NameCount(cfg.lib) && cap > NameCount(cfg.lib)
    requires OnPath(cfg.lib, wcSeen, ctxSeen, depth) && !m.NoMatch? && depth <= NameCount(cfg.lib)
    ensures Replace(cfg.(cap := cap), v, m, whole, wcSeen, ctxSeen, depth, p)
         == Replace(cfg, v, m, whole, wcSeen, ctxSeen, depth, p)
    decreases NameCount(cfg.lib) + 1 - depth, 0, 1
  {
    hide OnPath, NameCount, Identified, ExpandWc, ExpandCtx, ChainToken, ValueOf;
    if m.Legacy? {
      WcCapFree(cfg, cap, v, m.name, whole, wcSeen, ctxSeen, depth, p);
    } else if StartsWith(m.token, "wc.") {
      WcCapFree(cfg, cap, v, m.token[3..], whole, wcSeen, ctxSeen, depth, p);
    } else if StartsWith(m.token, "ctx.") {
      CtxCapFree(cfg, cap, v, m.token[4..], whole, wcSeen, ctxSeen, depth, p);
    }
  }

  lemma {:induction false} WcCapFree(cfg: Config, cap: nat, v: Values, name: string, whole: string,
                                     wcSeen: set<string>, ctxSeen: set<string>, depth: nat, p: Progress)
    requires Identified(cfg.lib) && cfg.cap > NameCount(cfg.lib) && cap > NameCount(cfg.lib)
    requires OnPath(cfg.lib, wcSeen, ctxSeen, depth) && depth <= NameCount(cfg.lib)
    ensures ExpandWc(cfg.(cap := cap), v, name, whole, wcSeen, ctxSeen, depth, p)
         == ExpandWc(cfg, v, name, whole, wcSeen, ctxSeen, depth, p)
    decreases NameCount(cfg.lib) + 1 - depth, 0, 0
  {
    var key := Lower(Strip(name));
    var entries := Entries(cfg.lib, key);
    if entries != [] && key !in wcSeen {
      hide Resolve, NameCount;
      assert OnPath(cfg.lib, wcSeen + {key}, ctxSeen, depth + 1);
      DepthBounded(cfg.lib, wcSeen + {key}, ctxSeen, depth + 1);
      ResolveCapFree(cfg, cap, v, entries[cfg.draws(p.drawn) % |entries|], wcSeen + {key}, ctxSeen, depth + 1,
                     p.(drawn := p.drawn + 1));
    }
  }

  lemma {:induction false} CtxCapFree(cfg: Config, cap: nat, v: Values, name: string, whole: string,
                                      wcSeen: set<string>, ctxSeen: set<string>, depth: nat, p: Progress)
    requires Identified(cfg.lib) && cfg.cap > NameCount(cfg.lib) && cap > NameCount(cfg.lib)
    requires OnPath(cfg.lib, wcSeen, ctxSeen, depth) && depth <= NameCount(cfg.lib)
    ensures ExpandCtx(cfg.(cap := cap), v, name, whole, wcSeen, ctxSeen, depth, p)
         == ExpandCtx(cfg, v, name, whole, wcSeen, ctxSeen, depth, p)
    decreases NameCount(cfg.lib) + 1 - depth, 0, 0
  {
    var key := Strip(name);
    var item := FindItem(cfg.lib, key);
    if item.Some? && SlugOf(item.value, key) !in ctxSeen {
      var slug := SlugOf(item.value, key);
      assert slug in Slugs(cfg.lib);
      hide Resolve, NameCount;
      assert OnPath(cfg.lib, wcSeen, ctxSeen + {slug}, depth + 1);
      DepthBounded(cfg.lib, wcSeen, ctxSeen + {slug}, depth + 1);
      ResolveCapFree(cfg, cap, v, item.value.content, wcSeen, ctxSeen + {slug}, depth + 1, p);
    }
  }

  /** Resolution ends on its own: all limits above the number of expandable names give the same
      text, the same draws and the same tracked tokens. */
  lemma {:induction false} LimitIsIrrelevant(cfg: Config, cap: nat, v: Values, template: string)
    requires Identified(cfg.lib) && cfg.cap > NameCount(cfg.lib) && cap > NameCount(cfg.lib)
    ensures Render(cfg.(cap := cap), v, template) == Render(cfg, v, template)
  {
    ResolveCapFree(cfg, cap, v, template, {}, {}, 0, Progress(0, []));
  }

  /** So the limit of 16 is never reached with at most 15 such names. */
  lemma {:induction false} CapNeverReached(cfg: Config, cap: nat, v: Values, template: string)
    requires cfg.cap == MAX_DEPTH && Identified(cfg.lib) && NameCount(cfg.lib) <= 15 && cap >= MAX_DEPTH
    ensures Render(cfg.(cap := cap), v, template) == Render(cfg, v, template)
  {
    LimitIsIrrelevant(cfg, cap, v, template);
  }

  // A library of 16 wildcards, each naming the next, the last one naming the input.

  function Letter(i: nat): string
    requires i < 16
  {
    [('a' as int + i) as char]
  }

  const INPUT_TOKEN := "{{" + "input" + "}}"

  function CallOf(i: nat): string
    requires i < 16
  {
    "{{wc." + Letter(i) + "}}"
  }

  function EntryOf(i: nat): string
    requires i < 16
  {
    if i == 15 then INPUT_TOKEN else CallOf(i + 1)
  }

  const LETTERS := set i: nat | i < 16 :: Letter(i)

  function Rung(key: string): (i: nat)
    ensures i < 16
  {
    if |key| == 1 && 'a' <= key[0] <= 'p' then key[0] as int - 'a' as int else 0
  }

  const LADDER := Library(map key | key in LETTERS :: [EntryOf(Rung(key))], map[])

  lemma {:induction false} LettersDiffer(i: nat, j: nat)
    requires i < 16 && j < 16 && Letter(i) == Letter(j)
    ensures i == j
  {
    assert Letter(i)[0] as int == 'a' as int + i && Letter(j)[0] as int == 'a' as int + j;
  }

  lemma {:induction false} LetterCount(n: nat)
    requires n <= 16
    ensures |set i: nat | i < n :: Letter(i)| == n
  {
    if n > 0 {
      LetterCount(n - 1);
      assert (set i: nat | i < n :: Letter(i)) == (set i: nat | i < n - 1 :: Letter(i)) + {Letter(n - 1)};
      forall i: nat | i < n - 1
        ensures Letter(i) != Letter(n - 1)
      {
        if Letter(i) == Letter(n - 1) {
          LettersDiffer(i, n - 1);
        }
      }
    }
  }

  lemma {:induction false} LadderHasSixteen()
    ensures Identified(LADDER) && NameCount(LADDER) == 16
    ensures forall i: nat :: i < 16 ==> Entries(LADDER, Letter(i)) == [EntryOf(i)]
  {
    forall i: nat | i < 16
      ensures Entries(LADDER, Letter(i)) == [EntryOf(i)]
    {
      assert Letter(i) in LETTERS && Rung(Letter(i)) == i;
    }
    LetterCount(16);
    assert LETTERS == set i: nat | i < 16 :: Letter(i);
    assert ActiveWildcards(LADDER) == LETTERS && |LETTERS| == 16;
    assert Slugs(LADDER) == {};
  }

  lemma {:induction false} BraceRunIs(text: string, i: nat, k: nat)
    requires i + k < |text| && text[i + k] == '}' && forall j :: i <= j < i + k ==> text[j] != '{' && text[j] != '}'
    ensures BraceRun(text, i) == k
    decreases k
  {
    if k > 0 {
      BraceRunIs(text, i + 1, k - 1);
    }
  }

  /** A text that is one brace token and nothing else. */
  lemma {:induction false} WholeToken(token: string)
    requires token != "" && !IsSpace(token[0]) && !IsSpace(token[|token| - 1])
    requires forall j :: 0 <= j < |token| ==> token[j] != '{' && token[j] != '}'
    ensures var text := "{{" + token + "}}";
      HasToken(text) && MatchAt(text, 0) == Brace(|text|, token)
  {
    var text := "{{" + token + "}}";
    BraceRunIs(text, 2, |token|);
    assert text[2..2 + |token|] == token;
    assert PairAt(text, 0, '{');
  }

  lemma {:induction false} ScanWhole(cfg: Config, v: Values, text: string, token: string, wcSeen: set<string>,
                                     ctxSeen: set<string>, depth: nat, p: Progress)
    requires text != "" && HasToken(text) && MatchAt(text, 0) == Brace(|text|, token) && depth < cfg.cap
    ensures Resolve(cfg, v, text, wcSeen, ctxSeen, depth, p)
         == Replace(cfg, v, Brace(|text|, token), text, wcSeen, ctxSeen, depth, p)
  {
    hide MatchAt, HasToken, Replace;
    var (value, p1) := Replace(cfg, v, Brace(|text|, token), text[0..|text|], wcSeen, ctxSeen, depth, p);
    assert text[0..|text|] == text && value + "" == value;
    assert Scan(cfg, v, text, |text|, wcSeen, ctxSeen, depth, p1) == ("", p1);
    assert Scan(cfg, v, text, 0, wcSeen, ctxSeen, depth, p) == (value + "", p1);
  }

  /** What the last wildcard of the ladder comes to. */
  function LadderEnd(cap: nat, v: Values): string {
    if cap <= 16 then INPUT_TOKEN else v.input
  }

  lemma {:induction false} InputToken(scope: Scope)
    ensures ChainToken("input", scope) == Some(Input)
    ensures !StartsWith("input", "wc.") && !StartsWith("input", "var.") && !StartsWith("input", "ctx.")
    ensures HasToken(INPUT_TOKEN) && MatchAt(INPUT_TOKEN, 0) == Brace(|INPUT_TOKEN|, "input")
  {
    WholeToken("input");
    hide HasToken, MatchAt;
  }

  lemma {:induction false} InputReplaced(cfg: Config, v: Values, whole: string, wcSeen: set<string>, ctxSeen: set<string>,
                                         depth: nat, p: Progress)
    requires depth < cfg.cap
    ensures Replace(cfg, v, Brace(|INPUT_TOKEN|, "input"), whole, wcSeen, ctxSeen, depth, p).0 == v.input
  {
    InputToken(ScopeOf(v));
    hide ChainToken, StartsWith, HasToken, MatchAt, ExpandWc, ExpandVar, ExpandCtx;
  }

  lemma {:induction false} InputExpands(cfg: Config, v: Values, wcSeen: set<string>, ctxSeen: set<string>, p: Progress)
    ensures Resolve(cfg, v, INPUT_TOKEN, wcSeen, ctxSeen, 16, p).0 == LadderEnd(cfg.cap, v)
  {
    hide Scan, HasToken;
    if cfg.cap > 16 {
      hide Resolve, Replace, MatchAt, ChainToken;
      InputToken(ScopeOf(v));
      ScanWhole(cfg, v, INPUT_TOKEN, "input", wcSeen, ctxSeen, 16, p);
      InputReplaced(cfg, v, INPUT_TOKEN, wcSeen, ctxSeen, 16, p);
    }
  }

  lemma {:induction false} WcReplaced(cfg: Config, v: Values, name: string, n: nat, whole: string, wcSeen: set<string>,
                                      depth: nat, p: Progress)
    requires depth < cfg.cap
    ensures Replace(cfg, v, Brace(n, "wc." + name), whole, wcSeen, {}, depth, p)
         == ExpandWc(cfg, v, name, whole, wcSeen, {}, depth, p)
  {
    hide ExpandWc;
    assert ("wc." + name)[3..] == name && StartsWith("wc." + name, "wc.");
  }

  lemma {:induction false} SingleEntry(cfg: Config, v: Values, key: string, entry: string, whole: string, wcSeen: set<string>,
                                       depth: nat, p: Progress)
    requires depth < cfg.cap && Lower(Strip(key)) == key && Entries(cfg.lib, key) == [entry] && key !in wcSeen
    ensures ExpandWc(cfg, v, key, whole, wcSeen, {}, depth, p).0
         == Resolve(cfg, v, entry, wcSeen + {key}, {}, depth + 1, p.(drawn := p.drawn + 1)).0
  {
    hide Resolve, Lower, Strip, Entries;
  }

  lemma {:induction false} RungToken(i: nat)
    requires i < 16
    ensures var (text, token) := (CallOf(i), "wc." + Letter(i));
      && text != "" && HasToken(text) && MatchAt(text, 0) == Brace(|text|, token)
      && Lower(Strip(Letter(i))) == Letter(i)
  {
    assert "{{" + ("wc." + Letter(i)) + "}}" == CallOf(i);
    WholeToken("wc." + Letter(i));
  }

  /** One rung: the token comes to what the wildcard's entry comes to. */
  lemma {:induction false} RungExpands(cfg: Config, v: Values, i: nat, wcSeen: set<string>, p: Progress)
    requires cfg.lib == LADDER && cfg.cap >= 16 && i < 16 && Letter(i) !in wcSeen
    ensures Resolve(cfg, v, CallOf(i), wcSeen, {}, i, p).0
         == Resolve(cfg, v, EntryOf(i), wcSeen + {Letter(i)}, {}, i + 1, p.(drawn := p.drawn + 1)).0
  {
    hide *;
    LadderHasSixteen();
    RungToken(i);
    var text := CallOf(i);
    ScanWhole(cfg, v, text, "wc." + Letter(i), wcSeen, {}, i, p);
    WcReplaced(cfg, v, Letter(i), |text|, text, wcSeen, i, p);
    SingleEntry(cfg, v, Letter(i), EntryOf(i), text, wcSeen, i, p);
  }

  lemma {:induction false} LadderClimbs(cfg: Config, v: Values, i: nat, wcSeen: set<string>, p: Progress)
    requires cfg.lib == LADDER && cfg.cap >= 16 && i < 16
    requires forall j: nat :: i <= j < 16 ==> Letter(j) !in wcSeen
    ensures Resolve(cfg, v, CallOf(i), wcSeen, {}, i, p).0 == LadderEnd(cfg.cap, v)
    decreases 16 - i
  {
    forall j: nat | i < j < 16
      ensures Letter(j) !in wcSeen + {Letter(i)}
    {
      if Letter(j) == Letter(i) {
        LettersDiffer(i, j);
      }
    }
    var next := p.(drawn := p.drawn + 1);
    hide Resolve, Letter, CallOf, LadderEnd;
    RungExpands(cfg, v, i, wcSeen, p);
    if i == 15 {
      InputExpands(cfg, v, wcSeen + {Letter(i)}, {}, next);
    } else {
      LadderClimbs(cfg, v, i + 1, wcSeen + {Letter(i)}, next);
    }
  }

  lemma {:induction false} FirstRung()
    ensures CallOf(0) == "{{wc.a}}"
  {
  }

  /** The bound of 15 names is tight: with these 16 the limit of 16 leaves the last token
      unexpanded, and a limit of 17 does not. */
  lemma {:induction false} CapIsTight(cfg: Config, v: Values)
    requires cfg.lib == LADDER && cfg.cap == MAX_DEPTH
    ensures Identified(cfg.lib) && NameCount(cfg.lib) == 16
    ensures Render(cfg, v, "{{wc.a}}").0 == INPUT_TOKEN
    ensures Render(cfg.(cap := 17), v, "{{wc.a}}").0 == v.input
  {
    LadderHasSixteen();
    FirstRung();
    hide Resolve, NameCount, CallOf, Letter;
    LadderClimbs(cfg, v, 0, {}, Progress(0, []));
    LadderClimbs(cfg.(cap := 17), v, 0, {}, Progress(0, []));
  }

  // ---- what each token becomes ----

  function Prepend(front: string, r: (string, Progress)): (string, Progress) {
    (front + r.0, r.1)
  }

  predicate Plain(text: string) {
    '{' !in text && '}' !in text && '%' !in text
  }

  predicate Blank(text: string) {
    forall i :: 0 <= i < |text| ==> IsSpace(text[i])
  }

  /** What can stand between the braces: no braces, and no white space at either end. */
  predicate IsTokenText(token: string) {
    token != "" && '{' !in token && '}' !in token && !IsSpace(token[0]) && !IsSpace(token[|token| - 1])
  }

  /** The token between plain texts becomes `value`, and is tracked with it. */
  ghost predicate Becomes(cfg: Config, v: Values, pre: string, whole: string, post: string, value: string, drawn: nat) {
    Render(cfg, v, pre + whole + post)
    == (pre + value + post, Progress(drawn, if cfg.track then [Substitution(whole, value)] else []))
  }

  /** It stays as it is, untracked. */
  ghost predicate Stays(cfg: Config, v: Values, pre: string, whole: string, post: string) {
    Render(cfg, v, pre + whole + post) == (pre + whole + post, Progress(0, []))
  }

  lemma {:induction false} StripPadded(left: string, core: string, right: string)
    requires Blank(left) && Blank(right) && core != "" && !IsSpace(core[0]) && !IsSpace(core[|core| - 1])
    ensures Strip(left + core + right) == core
    decreases |left| + |right|
  {
    var text := left + core + right;
    if left != "" {
      assert text[1..] == left[1..] + core + right;
      StripPadded(left[1..], core, right);
    } else if right != "" {
      assert text[..|text| - 1] == left + core + right[..|right| - 1];
      assert text[0] == core[0];
      StripPadded(left, core, right[..|right| - 1]);
    } else {
      assert text == core;
    }
  }

  lemma {:induction false} BraceIn(pre: string, left: string, token: string, right: string, post: string)
    requires IsTokenText(token) && Blank(left) && Blank(right)
    ensures var whole := "{{" + left + token + right + "}}";
      var text := pre + whole + post;
      MatchAt(text, |pre|) == Brace(|whole|, token) && HasToken(text)
  {
    var run := left + token + right;
    var whole := "{{" + left + token + right + "}}";
    var text := pre + whole + post;
    assert whole == "{{" + run + "}}";
    assert forall j :: 0 <= j < |whole| ==> text[|pre| + j] == whole[j];
    assert forall j :: 0 <= j < |run| ==> run[j] != '{' && run[j] != '}';
    assert forall j :: |pre| + 2 <= j < |pre| + 2 + |run| ==> text[j] == run[j - |pre| - 2];
    BraceRunIs(text, |pre| + 2, |run|);
    assert text[|pre| + 2..|pre| + 2 + |run|] == run;
    assert PairAt(text, |pre|, '{') && PairAt(text, |pre| + 2 + |run|, '}');
    StripPadded(left, token, right);
    hide Strip;
  }

  lemma {:induction false} PercentRunIs(text: string, i: nat, k: nat)
    requires i + k < |text| && text[i + k] == '%' && forall j :: i <= j < i + k ==> text[j] != '%' && text[j] != '\n'
    ensures PercentRun(text, i) == k
    decreases k
  {
    if k > 0 {
      PercentRunIs(text, i + 1, k - 1);
    }
  }

  lemma {:induction false} LegacyIn(pre: string, name: string, post: string)
    requires name != "" && '%' !in name && '\n' !in name
    ensures var text := pre + "%%" + name + "%%" + post;
      MatchAt(text, |pre|) == Legacy(|name| + 4, name) && LegacyAt(text, |pre|) && HasToken(text)
  {
    var whole := "%%" + name + "%%";
    var text := pre + "%%" + name + "%%" + post;
    assert text == pre + whole + post;
    assert forall j :: 0 <= j < |whole| ==> text[|pre| + j] == whole[j];
    assert forall j :: |pre| + 2 <= j < |pre| + 2 + |name| ==> text[j] == name[j - |pre| - 2];
    PercentRunIs(text, |pre| + 2, |name|);
    assert text[|pre| + 2..|pre| + 2 + |name|] == name;
    assert PairAt(text, |pre|, '%') && PairAt(text, |pre| + 2 + |name|, '%');
  }

  /** Text without token signs is copied. */
  lemma {:induction false} ScanPlain(cfg: Config, v: Values, text: string, i: nat, k: nat, wcSeen: set<string>,
                                     ctxSeen: set<string>, depth: nat, p: Progress)
    requires i <= k <= |text| && depth < cfg.cap
    requires forall j :: i <= j < k ==> text[j] != '{' && text[j] != '%'
    ensures Scan(cfg, v, text, i, wcSeen, ctxSeen, depth, p)
         == Prepend(text[i..k], Scan(cfg, v, text, k, wcSeen, ctxSeen, depth, p))
    decreases k - i
  {
    hide Scan, MatchAt;
    var rest := Scan(cfg, v, text, k, wcSeen, ctxSeen, depth, p);
    if i == k {
      assert text[i..k] == "" && "" + rest.0 == rest.0;
    } else {
      ScanChar(cfg, v, text, i, wcSeen, ctxSeen, depth, p);
      ScanPlain(cfg, v, text, i + 1, k, wcSeen, ctxSeen, depth, p);
      CharBefore(text, i, k, rest.0);
    }
  }

  lemma {:induction false} CharBefore(text: string, i: nat, k: nat, rest: string)
    requires i < k <= |text|
    ensures [text[i]] + (text[i + 1..k] + rest) == text[i..k] + rest
  {
  }

  lemma {:induction false} ScanChar(cfg: Config, v: Values, text: string, i: nat, wcSeen: set<string>,
                                    ctxSeen: set<string>, depth: nat, p: Progress)
    requires i < |text| && depth < cfg.cap && text[i] != '{' && text[i] != '%'
    ensures Scan(cfg, v, text, i, wcSeen, ctxSeen, depth, p)
         == Prepend([text[i]], Scan(cfg, v, text, i + 1, wcSeen, ctxSeen, depth, p))
  {
    assert MatchAt(text, i).NoMatch?;
    hide MatchAt;
  }

  /** One token between plain texts: what is around it is copied. */
  lemma {:induction false} OneToken(cfg: Config, v: Values, pre: string, whole: string, post: string, m: Match)
    requires cfg.cap > 0 && Plain(pre) && Plain(post) && whole != ""
    requires var text := pre + whole + post;
      HasToken(text) && MatchAt(text, |pre|) == m && !m.NoMatch? && m.length == |whole|
    ensures var (value, p) := Replace(cfg, v, m, whole, {}, {}, 0, Progress(0, []));
      Render(cfg, v, pre + whole + post) == (pre + value + post, p)
  {
    hide *;
    var text := pre + whole + post;
    Middle(pre, whole, post);
    ScanMatch(cfg, v, text, |pre|, m, Progress(0, []));
    var (value, p) := Replace(cfg, v, m, whole, {}, {}, 0, Progress(0, []));
    ScanAround(cfg, v, pre, whole, post, p);
    Around(pre, value, post, p);
    Renders(cfg, v, text);
  }

  lemma {:induction false} Middle(pre: string, whole: string, post: string)
    ensures (pre + whole + post)[|pre|..|pre| + |whole|] == whole
  {
  }

  lemma {:induction false} Around(pre: string, value: string, post: string, p: Progress)
    ensures Prepend(pre, Prepend(value, (post, p))) == (pre + value + post, p)
  {
    assert pre + (value + post) == pre + value + post;
  }

  lemma {:induction false} Renders(cfg: Config, v: Values, text: string)
    requires cfg.cap > 0 && HasToken(text)
    ensures Render(cfg, v, text) == Scan(cfg, v, text, 0, {}, {}, 0, Progress(0, []))
  {
    hide Scan;
  }

  lemma {:induction false} ScanMatch(cfg: Config, v: Values, text: string, i: nat, m: Match, p0: Progress)
    requires cfg.cap > 0 && i < |text| && MatchAt(text, i) == m && !m.NoMatch?
    ensures i + m.length <= |text|
    ensures var (value, p) := Replace(cfg, v, m, text[i..i + m.length], {}, {}, 0, p0);
      Scan(cfg, v, text, i, {}, {}, 0, p0) == Prepend(value, Scan(cfg, v, text, i + m.length, {}, {}, 0, p))
  {
    hide MatchAt, Replace;
  }

  /** A match that is replaced by `value`, or kept. */
  lemma {:induction false} TokenBecomes(cfg: Config, v: Values, pre: string, whole: string, post: string, m: Match,
                                        value: string, drawn: nat)
    requires cfg.cap > 0 && Plain(pre) && Plain(post) && whole != ""
    requires var text := pre + whole + post;
      HasToken(text) && MatchAt(text, |pre|) == m && !m.NoMatch? && m.length == |whole|
    ensures var r := Replace(cfg, v, m, whole, {}, {}, 0, Progress(0, []));
      && (r == Tracked(cfg, whole, value, Progress(drawn, [])) ==> Becomes(cfg, v, pre, whole, post, value, drawn))
      && (r == (whole, Progress(0, [])) ==> Stays(cfg, v, pre, whole, post))
  {
    OneToken(cfg, v, pre, whole, post, m);
    hide Replace, Render, MatchAt, HasToken, Plain;
    assert [] + [Substitution(whole, value)] == [Substitution(whole, value)];
  }

  lemma {:induction false} ScanAround(cfg: Config, v: Values, pre: string, whole: string, post: string, p: Progress)
    requires cfg.cap > 0 && Plain(pre) && Plain(post)
    ensures var text := pre + whole + post;
      && Scan(cfg, v, text, |pre| + |whole|, {}, {}, 0, p) == (post, p)
      && Scan(cfg, v, text, 0, {}, {}, 0, Progress(0, [])) == Prepend(pre, Scan(cfg, v, text, |pre|, {}, {}, 0, Progress(0, [])))
  {
    var text := pre + whole + post;
    var at := |pre| + |whole|;
    assert forall j :: 0 <= j < |pre| ==> text[j] == pre[j];
    assert forall j :: at <= j < |text| ==> text[j] == post[j - at];
    ScanPlain(cfg, v, text, at, |text|, {}, {}, 0, p);
    ScanEnd(cfg, v, text, {}, {}, 0, p, post);
    assert text[at..] == post && text[at..|text|] == post;
    ScanPlain(cfg, v, text, 0, |pre|, {}, {}, 0, Progress(0, []));
    assert text[0..|pre|] == pre;
  }

  predicate HasNamespace(token: string) {
    "wc." <= token || "var." <= token || "ctx." <= token
  }

  /** Some digits with this ending. */
  ghost predicate IsNumbered(token: string, ending: string) {
    exists digits :: digits != "" && AllDigits(digits) && token == digits + ending
  }

  lemma {:induction false} NumberedInput(digits: string)
    requires digits != "" && AllDigits(digits)
    ensures NumberedToken(digits + "_input") == Some(StepInput(Value(digits)))
    ensures NumberedToken(digits + "_output") == Some(StepOutput(Value(digits)))
  {
    var a, b := digits + "_input", digits + "_output";
    assert a[|a| - 6..] == "_input" && a[..|a| - 6] == digits;
    assert b[|b| - 7..] == "_output" && b[..|b| - 7] == digits;
    assert b[|b| - 6..][0] == 'o';
  }

  lemma {:induction false} NotNumbered(token: string)
    requires !IsNumbered(token, "_input") && !IsNumbered(token, "_output")
    ensures NumberedToken(token) == None
  {
    if |token| > 6 {
      assert token == token[..|token| - 6] + token[|token| - 6..];
    }
    if |token| > 7 {
      assert token == token[..|token| - 7] + token[|token| - 7..];
    }
  }

  const FIXED := ["input", "previous", "context", "step_index", "step_name"]

  /** A brace token that names runtime data becomes that data: one of the five fixed names, a key
      in scope, or the newest recorded input or output of a step; an unknown name vanishes in a
      final rendering and stays otherwise. */
  lemma {:induction false} ChainTokenRenders(cfg: Config, v: Values, pre: string, left: string, token: string, right: string,
                                             post: string)
    requires cfg.cap > 0 && Plain(pre) && Plain(post) && Blank(left) && Blank(right)
    requires IsTokenText(token) && !HasNamespace(token)
    ensures var whole := "{{" + left + token + right + "}}";
      && (token == "input" ==> Becomes(cfg, v, pre, whole, post, v.input, 0))
      && (token == "previous" ==> Becomes(cfg, v, pre, whole, post, v.previous, 0))
      && (token == "context" ==> Becomes(cfg, v, pre, whole, post, v.context, 0))
      && (token == "step_index" ==> Becomes(cfg, v, pre, whole, post, Padded(v.stepIndex, 0), 0))
      && (token == "step_name" ==> Becomes(cfg, v, pre, whole, post, v.stepName, 0))
      && (token !in FIXED && token in v.extra ==> Becomes(cfg, v, pre, whole, post, v.extra[token], 0))
      && (token !in FIXED && token !in v.extra ==>
          && (forall digits :: digits != "" && AllDigits(digits) && token == digits + "_input" ==>
              Becomes(cfg, v, pre, whole, post, NewestOf(v.stepInputs, Value(digits)), 0))
          && (forall digits :: digits != "" && AllDigits(digits) && token == digits + "_output" ==>
              Becomes(cfg, v, pre, whole, post, NewestOf(v.stepOutputs, Value(digits)), 0))
          && (!IsNumbered(token, "_input") && !IsNumbered(token, "_output") ==>
              if cfg.final then Becomes(cfg, v, pre, whole, post, "", 0) else Stays(cfg, v, pre, whole, post)))
  {
    var whole := "{{" + left + token + right + "}}";
    var m := Brace(|whole|, token);
    var hole := ChainToken(token, ScopeOf(v));
    BraceIn(pre, left, token, right, post);
    ReplacedHole(cfg, v, token, whole, Progress(0, []));
    HoleOf(token, ScopeOf(v));
    hide *;
    TokenBecomes(cfg, v, pre, whole, post, m, if hole.Some? then ValueOf(hole.value, v) else "", 0);
    ValuesOf(v);
  }

  lemma {:induction false} ReplacedHole(cfg: Config, v: Values, token: string, whole: string, p: Progress)
    requires cfg.cap > 0 && !HasNamespace(token)
    ensures var hole := ChainToken(token, ScopeOf(v));
      Replace(cfg, v, Brace(|whole|, token), whole, {}, {}, 0, p)
      == if hole.Some? then Tracked(cfg, whole, ValueOf(hole.value, v), p)
         else if cfg.final then Tracked(cfg, whole, "", p) else (whole, p)
  {
    NoNamespace(token);
    hide ChainToken, ValueOf, Tracked, StartsWith;
  }

  lemma {:induction false} ValuesOf(v: Values)
    ensures ValueOf(Input, v) == v.input && ValueOf(Previous, v) == v.previous && ValueOf(Context, v) == v.context
    ensures ValueOf(StepIndex, v) == Padded(v.stepIndex, 0) && ValueOf(StepName, v) == v.stepName
    ensures forall name :: name in v.extra ==> ValueOf(Extra(name), v) == v.extra[name]
    ensures forall n: nat :: ValueOf(StepInput(n), v) == NewestOf(v.stepInputs, n)
    ensures forall n: nat :: ValueOf(StepOutput(n), v) == NewestOf(v.stepOutputs, n)
  {
    hide Padded, NewestOf;
  }

  lemma {:induction false} HoleOf(token: string, scope: Scope)
    ensures var hole := ChainToken(token, scope);
      && (token == "input" ==> hole == Some(Input))
      && (token == "previous" ==> hole == Some(Previous))
      && (token == "context" ==> hole == Some(Context))
      && (token == "step_index" ==> hole == Some(StepIndex))
      && (token == "step_name" ==> hole == Some(StepName))
      && (token !in FIXED && token in scope.extra ==> hole == Some(Extra(token)))
      && (token !in FIXED && token !in scope.extra ==>
          && (forall digits :: digits != "" && AllDigits(digits) && token == digits + "_input" ==>
              hole == Some(StepInput(Value(digits))))
          && (forall digits :: digits != "" && AllDigits(digits) && token == digits + "_output" ==>
              hole == Some(StepOutput(Value(digits))))
          && (!IsNumbered(token, "_input") && !IsNumbered(token, "_output") ==> hole == None))
  {
    FixedNames(token);
    forall digits | digits != "" && AllDigits(digits)
      ensures token == digits + "_input" ==> NumberedToken(token) == Some(StepInput(Value(digits)))
      ensures token == digits + "_output" ==> NumberedToken(token) == Some(StepOutput(Value(digits)))
    {
      NumberedInput(digits);
    }
    if !IsNumbered(token, "_input") && !IsNumbered(token, "_output") {
      NotNumbered(token);
    }
    hide NumberedToken, AllDigits, IsNumbered;
  }

  lemma {:induction false} FixedNames(token: string)
    ensures token in FIXED <==> token == "input" || token == "previous" || token == "context" || token == "step_index" || token == "step_name"
  {
    if token == "input" {
      assert FIXED[0] == token;
    } else if token == "previous" {
      assert FIXED[1] == token;
    } else if token == "context" {
      assert FIXED[2] == token;
    } else if token == "step_index" {
      assert FIXED[3] == token;
    } else if token == "step_name" {
      assert FIXED[4] == token;
    }
  }

  lemma {:induction false} NoNamespace(token: string)
    requires !HasNamespace(token)
    ensures !StartsWith(token, "wc.") && !StartsWith(token, "var.") && !StartsWith(token, "ctx.")
  {
  }

  /** A variable becomes its value; out of scope its name in a final rendering, else it stays. */
  lemma {:induction false} VariableRenders(cfg: Config, v: Values, pre: string, left: string, name: string, right: string,
                                           post: string)
    requires cfg.cap > 0 && Plain(pre) && Plain(post) && Blank(left) && Blank(right) && IsTokenText("var." + name)
    ensures var (whole, key) := ("{{" + left + ("var." + name) + right + "}}", Strip(name));
      if key in v.variables then Becomes(cfg, v, pre, whole, post, v.variables[key], 0)
      else if cfg.final then Becomes(cfg, v, pre, whole, post, key, 0)
      else Stays(cfg, v, pre, whole, post)
  {
    var whole := "{{" + left + ("var." + name) + right + "}}";
    BraceIn(pre, left, "var." + name, right, post);
    ReplacedVar(cfg, v, name, whole, Progress(0, []));
    hide *;
    var key := Strip(name);
    TokenBecomes(cfg, v, pre, whole, post, Brace(|whole|, "var." + name),
                 if key in v.variables then v.variables[key] else key, 0);
  }

  lemma {:induction false} ReplacedVar(cfg: Config, v: Values, name: string, whole: string, p: Progress)
    requires cfg.cap > 0
    ensures var key := Strip(name);
      Replace(cfg, v, Brace(|whole|, "var." + name), whole, {}, {}, 0, p)
      == if key in v.variables then Tracked(cfg, whole, v.variables[key], p)
         else if cfg.final then Tracked(cfg, whole, key, p) else (whole, p)
  {
    assert ("var." + name)[4..] == name && ("var." + name)[0] == 'v' && ("var." + name)[..4] == "var.";
    hide Strip, Tracked;
  }

  /** What a wildcard becomes, in either notation: the entry drawn, when it holds no token itself;
      an unknown or empty one stays. */
  ghost predicate WildcardRenders(cfg: Config, v: Values, pre: string, whole: string, post: string, name: string) {
    var key := Lower(Strip(name));
    if key !in cfg.lib.wildcards || cfg.lib.wildcards[key] == [] then Stays(cfg, v, pre, whole, post)
    else
      var entries := cfg.lib.wildcards[key];
      exists k :: 0 <= k < |entries| && (cfg.draws(0) < |entries| ==> k == cfg.draws(0))
                  && (!HasToken(entries[k]) ==> Becomes(cfg, v, pre, whole, post, entries[k], 1))
  }

  lemma {:induction false} WildcardTokenRenders(cfg: Config, v: Values, pre: string, left: string, name: string, right: string,
                                                post: string)
    requires cfg.cap > 0 && Plain(pre) && Plain(post) && Blank(left) && Blank(right) && IsTokenText("wc." + name)
    ensures WildcardRenders(cfg, v, pre, "{{" + left + ("wc." + name) + right + "}}", post, name)
  {
    var whole := "{{" + left + ("wc." + name) + right + "}}";
    BraceIn(pre, left, "wc." + name, right, post);
    OneToken(cfg, v, pre, whole, post, Brace(|whole|, "wc." + name));
    assert ("wc." + name)[3..] == name && ("wc." + name)[..3] == "wc.";
    hide MatchAt, HasToken, Render;
    ExpandedEntry(cfg, v, name, whole);
    hide ExpandWc, Lower, Strip;
  }

  lemma {:induction false} LegacyTokenRenders(cfg: Config, v: Values, pre: string, name: string, post: string)
    requires cfg.cap > 0 && Plain(pre) && Plain(post) && name != "" && '%' !in name && '\n' !in name
    ensures WildcardRenders(cfg, v, pre, "%%" + name + "%%", post, name)
  {
    var whole := "%%" + name + "%%";
    LegacyIn(pre, name, post);
    assert pre + "%%" + name + "%%" + post == pre + whole + post;
    OneToken(cfg, v, pre, whole, post, Legacy(|whole|, name));
    hide MatchAt, HasToken, Render;
    ExpandedEntry(cfg, v, name, whole);
    hide ExpandWc, Lower, Strip;
  }

  /** One expansion at the top, for an entry without tokens. */
  lemma {:induction false} ExpandedEntry(cfg: Config, v: Values, name: string, whole: string)
    requires cfg.cap > 0
    ensures var key := Lower(Strip(name));
      var r := ExpandWc(cfg, v, name, whole, {}, {}, 0, Progress(0, []));
      if key !in cfg.lib.wildcards || cfg.lib.wildcards[key] == [] then r == (whole, Progress(0, []))
      else
        var entries := cfg.lib.wildcards[key];
        exists k :: 0 <= k < |entries| && (cfg.draws(0) < |entries| ==> k == cfg.draws(0))
                    && (!HasToken(entries[k]) ==>
                        r == (entries[k], Progress(1, if cfg.track then [Substitution(whole, entries[k])] else [])))
  {
    hide HasToken, Scan, Lower, Strip;
    var key := Lower(Strip(name));
    var entries := Entries(cfg.lib, key);
    if entries != [] {
      var k := cfg.draws(0) % |entries|;
      DrawnIndex(cfg.draws(0), |entries|);
      assert !HasToken(entries[k]) ==> Resolve(cfg, v, entries[k], {key}, {}, 1, Progress(1, [])) == (entries[k], Progress(1, []));
      assert [] + [Substitution(whole, entries[k])] == [Substitution(whole, entries[k])];
    }
  }

  lemma {:induction false} DrawnIndex(draw: nat, n: nat)
    requires n > 0
    ensures draw % n < n && (draw < n ==> draw % n == draw)
  {
  }

  /** A context item is found by its key or by the key in lower case, and becomes its content
      when that holds no token itself; a missing one becomes its name in a final rendering. */
  lemma {:induction false} ContextTokenRenders(cfg: Config, v: Values, pre: string, left: string, name: string, right: string,
                                               post: string)
    requires cfg.cap > 0 && Plain(pre) && Plain(post) && Blank(left) && Blank(right) && IsTokenText("ctx." + name)
    ensures var (whole, key) := ("{{" + left + ("ctx." + name) + right + "}}", Strip(name));
      var items := cfg.lib.contexts;
      if key !in items && Lower(key) !in items then
        if cfg.final then Becomes(cfg, v, pre, whole, post, key, 0) else Stays(cfg, v, pre, whole, post)
      else
        var content := items[if key in items then key else Lower(key)].content;
        !HasToken(content) ==> Becomes(cfg, v, pre, whole, post, content, 0)
  {
    var whole := "{{" + left + ("ctx." + name) + right + "}}";
    BraceIn(pre, left, "ctx." + name, right, post);
    ReplacedCtx(cfg, v, name, whole, Progress(0, []));
    hide *;
    var key := Strip(name);
    var item := FindItem(cfg.lib, key);
    FoundItem(cfg.lib, key);
    TokenBecomes(cfg, v, pre, whole, post, Brace(|whole|, "ctx." + name),
                 if item.Some? then item.value.content else key, 0);
  }

  lemma {:induction false} FoundItem(lib: Library, key: string)
    ensures var items := lib.contexts;
      FindItem(lib, key) == if key in items then Some(items[key]) else if Lower(key) in items then Some(items[Lower(key)]) else None
  {
  }

  lemma {:induction false} ReplacedCtx(cfg: Config, v: Values, name: string, whole: string, p: Progress)
    requires cfg.cap > 0
    ensures var (key, r) := (Strip(name), Replace(cfg, v, Brace(|whole|, "ctx." + name), whole, {}, {}, 0, p));
      var item := FindItem(cfg.lib, key);
      && (item.None? ==> r == if cfg.final then Tracked(cfg, whole, key, p) else (whole, p))
      && (item.Some? && !HasToken(item.value.content) ==> r == Tracked(cfg, whole, item.value.content, p))
  {
    assert ("ctx." + name)[4..] == name && ("ctx." + name)[0] == 'c' && ("ctx." + name)[..4] == "ctx.";
    hide Strip, Tracked, Scan, FindItem, HasToken;
    var item := FindItem(cfg.lib, Strip(name));
    if item.Some? {
      var (slug, content) := (SlugOf(item.value, Strip(name)), item.value.content);
      assert !HasToken(content) ==> Resolve(cfg, v, content, {}, {slug}, 1, p) == (content, p);
      assert {} + {slug} == {slug};
    }
  }

  // ---- the resolver as an object ----

  /** One turn of the substitution loop, after `done` has been written. */
  lemma {:induction false} ScanNext(cfg: Config, v: Values, text: string, i: nat, wcSeen: set<string>,
                                    ctxSeen: set<string>, depth: nat, p: Progress, done: string)
    requires i < |text| && depth < cfg.cap
    ensures var m := MatchAt(text, i);
      Prepend(done, Scan(cfg, v, text, i, wcSeen, ctxSeen, depth, p)) ==
      if m.NoMatch? then Prepend(done + [text[i]], Scan(cfg, v, text, i + 1, wcSeen, ctxSeen, depth, p))
      else
        var (value, p1) := Replace(cfg, v, m, text[i..i + m.length], wcSeen, ctxSeen, depth, p);
        Prepend(done + value, Scan(cfg, v, text, i + m.length, wcSeen, ctxSeen, depth, p1))
  {
    hide MatchAt, Replace;
    var m := MatchAt(text, i);
    if m.NoMatch? {
      var rest := Scan(cfg, v, text, i + 1, wcSeen, ctxSeen, depth, p).0;
      assert done + ([text[i]] + rest) == (done + [text[i]]) + rest;
    } else {
      var (value, p1) := Replace(cfg, v, m, text[i..i + m.length], wcSeen, ctxSeen, depth, p);
      var rest := Scan(cfg, v, text, i + m.length, wcSeen, ctxSeen, depth, p1).0;
      assert done + (value + rest) == (done + value) + rest;
    }
  }

  lemma {:induction false} ScanEnd(cfg: Config, v: Values, text: string, wcSeen: set<string>, ctxSeen: set<string>,
                                   depth: nat, p: Progress, done: string)
    requires depth < cfg.cap
    ensures Prepend("", Scan(cfg, v, text, 0, wcSeen, ctxSeen, depth, p)) == Scan(cfg, v, text, 0, wcSeen, ctxSeen, depth, p)
    ensures Prepend(done, Scan(cfg, v, text, |text|, wcSeen, ctxSeen, depth, p)) == (done, p)
  {
    var all := Scan(cfg, v, text, 0, wcSeen, ctxSeen, depth, p).0;
    assert "" + all == all && done + "" == done;
    assert Scan(cfg, v, text, |text|, wcSeen, ctxSeen, depth, p) == ("", p);
  }

  /** One call of `render`: the closures over the tracked substitutions and the random source. */
  class Renderer {
    const cfg: Config
    const values: Values
    var drawn: nat
    var subs: seq<Substitution>

    function Done(): Progress
      reads this
    {
      Progress(drawn, subs)
    }

    constructor (cfg: Config, values: Values)
      ensures this.cfg == cfg && this.values == values && Done() == Progress(0, [])
    {
      this.cfg, this.values, drawn, subs := cfg, values, 0, [];
    }

    method Track(token: string, value: string) returns (r: string)
      modifies this
      ensures (r, Done()) == Tracked(cfg, token, value, old(Done()))
    {
      if cfg.track {
        subs := subs + [Substitution(token, value)];
      }
      return value;
    }

    method ResolveText(text: string, wcSeen: set<string>, ctxSeen: set<string>, depth: nat) returns (r: string)
      modifies this
      ensures (r, Done()) == Resolve(cfg, values, text, wcSeen, ctxSeen, depth, old(Done()))
      decreases if depth < cfg.cap then cfg.cap - depth else 0, 2
    {
      if text == "" || depth >= cfg.cap {
        return text;
      }
      if !HasToken(text) {
        return text;
      }
      r := Substitute(text, wcSeen, ctxSeen, depth);
    }

    /** `_COMBINED_RE.sub(repl, text)` */
    method Substitute(text: string, wcSeen: set<string>, ctxSeen: set<string>, depth: nat) returns (r: string)
      requires depth < cfg.cap
      modifies this
      ensures (r, Done()) == Scan(cfg, values, text, 0, wcSeen, ctxSeen, depth, old(Done()))
      decreases cfg.cap - depth, 1
    {
      hide Scan, Replace, MatchAt;
      ghost var whole := Scan(cfg, values, text, 0, wcSeen, ctxSeen, depth, Done());
      ScanEnd(cfg, values, text, wcSeen, ctxSeen, depth, Done(), "");
      r := "";
      var i := 0;
      while i < |text|
        invariant i <= |text|
        invariant whole == Prepend(r, Scan(cfg, values, text, i, wcSeen, ctxSeen, depth, Done()))
        decreases |text| - i
      {
        ScanNext(cfg, values, text, i, wcSeen, ctxSeen, depth, Done(), r);
        var m := MatchAt(text, i);
        if m.NoMatch? {
          r := r + [text[i]];
          i := i + 1;
        } else {
          var value := Repl(m, text[i..i + m.length], wcSeen, ctxSeen, depth);
          r := r + value;
          i := i + m.length;
        }
      }
      ScanEnd(cfg, values, text, wcSeen, ctxSeen, depth, Done(), r);
    }

    method Repl(m: Match, whole: string, wcSeen: set<string>, ctxSeen: set<string>, depth: nat) returns (r: string)
      requires !m.NoMatch? && depth < cfg.cap
      modifies this
      ensures (r, Done()) == Replace(cfg, values, m, whole, wcSeen, ctxSeen, depth, old(Done()))
      decreases cfg.cap - depth, 0, 1
    {
      hide ExpandWc, ExpandCtx, ChainToken, ValueOf;
      if m.Legacy? {
        r := Wildcard(m.name, whole, wcSeen, ctxSeen, depth);
      } else if StartsWith(m.token, "wc.") {
        r := Wildcard(m.token[3..], whole, wcSeen, ctxSeen, depth);
      } else if StartsWith(m.token, "var.") {
        var key := Strip(m.token[4..]);
        if key in values.variables {
          r := Track(whole, values.variables[key]);
        } else if cfg.final {
          r := Track(whole, key);
        } else {
          r := whole;
        }
      } else if StartsWith(m.token, "ctx.") {
        r := ContextItem(m.token[4..], whole, wcSeen, ctxSeen, depth);
      } else {
        var hole := ChainToken(m.token, ScopeOf(values));
        if hole.Some? {
          r := Track(whole, ValueOf(hole.value, values));
        } else if cfg.final {
          r := Track(whole, "");
        } else {
          r := whole;
        }
      }
    }

    method Wildcard(name: string, whole: string, wcSeen: set<string>, ctxSeen: set<string>, depth: nat) returns (r: string)
      requires depth < cfg.cap
      modifies this
      ensures (r, Done()) == ExpandWc(cfg, values, name, whole, wcSeen, ctxSeen, depth, old(Done()))
      decreases cfg.cap - depth, 0, 0
    {
      hide Resolve;
      var key := Lower(Strip(name));
      var entries := Entries(cfg.lib, key);
      if entries == [] || key in wcSeen {
        return whole;
      }
      var picked := entries[cfg.draws(drawn) % |entries|];
      drawn := drawn + 1;
      var value := ResolveText(picked, wcSeen + {key}, ctxSeen, depth + 1);
      r := Track(whole, value);
    }

    method ContextItem(name: string, whole: string, wcSeen: set<string>, ctxSeen: set<string>, depth: nat) returns (r: string)
      requires depth < cfg.cap
      modifies this
      ensures (r, Done()) == ExpandCtx(cfg, values, name, whole, wcSeen, ctxSeen, depth, old(Done()))
      decreases cfg.cap - depth, 0, 0
    {
      hide Resolve;
      var key := Strip(name);
      var item := FindItem(cfg.lib, key);
      if item.None? {
        if cfg.final {
          r := Track(whole, key);
        } else {
          r := whole;
        }
        return;
      }
      var slug := SlugOf(item.value, key);
      if slug in ctxSeen {
        return whole;
      }
      var value := ResolveText(item.value.content, wcSeen, ctxSeen + {slug}, depth + 1);
      r := Track(whole, value);
    }
  }
}
