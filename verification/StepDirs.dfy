/** Names of the directories in which a run keeps the artifacts of its step invocations. */
module StepDirs {
  import opened Prelude
  import opened Decimal
  import opened ChainModels
  import opened ChainRun

  predicate IsSafe(c: char) {
    'a' <= c <= 'z' || 'A' <= c <= 'Z' || IsDigit(c) || c == '_' || c == '-'
  }

  /** `_sanitize_id`: unsafe characters become underscores, at most 64 are kept. */
  function SanitizeId(raw: string, fallback: string): string {
    var safe := seq(|raw|, i requires 0 <= i < |raw| => if IsSafe(raw[i]) then raw[i] else '_');
    var cut := if |safe| > 64 then safe[..64] else safe;
    if cut == "" then fallback else cut
  }

  function StepId(step: ChainStep, number: int): string {
    var fallback := "step_" + Signed(number);
    SanitizeId(if step.id != "" then step.id else if step.name != "" then step.name else fallback, fallback)
  }

  function Signed(n: int): string {
    Padded(n, 0)
  }

  /** `f"{ptr:03d}_{step_id}"`, with `_x{inv:02d}` appended from the second invocation on. */
  function DirName(number: int, stepId: string, invocation: nat): string {
    Padded(number, 3) + "_" + stepId + Suffix(invocation)
  }

  function Suffix(invocation: nat): string {
    if invocation == 0 then "" else "_x" + Padded(invocation, 2)
  }

  /** What stands for a step in its directory's name: its id, else its name, else its number;
      unsafe characters replaced one by one, and no more than 64 characters kept. */
  lemma {:induction false} StepIdIs(step: ChainStep, number: int)
    ensures var raw := if step.id != "" then step.id else if step.name != "" then step.name else "step_" + Padded(number, 0);
      var r := StepId(step, number);
      && |r| == (if |raw| < 64 then |raw| else 64)
      && forall i :: 0 <= i < |r| ==> r[i] == if IsSafe(raw[i]) then raw[i] else '_'
  {
  }

  /** The form of the names. */
  lemma {:induction false} DirNameExamples()
    ensures DirName(7, "plan", 0) == "007_plan" && DirName(12, "plan", 3) == "012_plan_x03"
  {
    assert Numeral(7) == "7" && Numeral(3) == "3" && Numeral(1) == "1";
    assert Numeral(12) == "12";
    assert Zeros(2) == "00" && Zeros(1) == "0";
    hide Numeral;
    assert Padded(7, 3) == "007" && Padded(12, 3) == "012" && Padded(3, 2) == "03";
    hide Padded;
    assert Suffix(3) == "_x" + "03" == "_x03" && Suffix(0) == "";
  }

  lemma {:induction false} NoUnderscore(n: int, width: nat)
    ensures forall i :: 0 <= i < |Padded(n, width)| ==> Padded(n, width)[i] != '_'
  {
    PaddedParts(n, width);
  }

  lemma {:induction false} FirstUnderscore(a: string, b: string, s: string, t: string)
    requires a + "_" + s == b + "_" + t
    requires forall i :: 0 <= i < |a| ==> a[i] != '_'
    requires forall i :: 0 <= i < |b| ==> b[i] != '_'
    ensures a == b && s == t
  {
    var whole := a + "_" + s;
    assert whole[|a|] == '_' && whole[|b|] == '_';
    assert forall i :: 0 <= i < |a| ==> whole[i] == a[i];
    assert forall i :: 0 <= i < |b| ==> whole[i] == b[i];
    assert |a| == |b|;
    assert whole[..|a|] == a && whole[..|b|] == b;
    assert whole[|a| + 1..] == s && whole[|b| + 1..] == t;
  }

  /** Within a run a step number determines its step, and with it the id part of the name; so
      the name determines the step number and the invocation. */
  lemma {:induction false} DirNameInjective(steps: map<int, ChainStep>, m: int, i: nat, n: int, j: nat)
    requires m in steps && n in steps
    requires DirName(m, StepId(steps[m], m), i) == DirName(n, StepId(steps[n], n), j)
    ensures m == n && i == j
  {
    hide StepId, Suffix, Padded;
    var idM, idN := StepId(steps[m], m), StepId(steps[n], n);
    NoUnderscore(m, 3);
    NoUnderscore(n, 3);
    assert DirName(m, idM, i) == Padded(m, 3) + "_" + (idM + Suffix(i));
    assert DirName(n, idN, j) == Padded(n, 3) + "_" + (idN + Suffix(j));
    FirstUnderscore(Padded(m, 3), Padded(n, 3), idM + Suffix(i), idN + Suffix(j));
    PaddedInjective(m, n, 3);
    assert (idM + Suffix(i))[|idM|..] == Suffix(i);
    assert (idM + Suffix(j))[|idM|..] == Suffix(j);
    SuffixInjective(i, j);
  }

  lemma {:induction false} SuffixInjective(i: nat, j: nat)
    requires Suffix(i) == Suffix(j)
    ensures i == j
  {
    if i > 0 && j > 0 {
      assert Suffix(i)[2..] == Padded(i, 2) && Suffix(j)[2..] == Padded(j, 2);
      PaddedInjective(i, j, 2);
    }
  }

  /** The directories a run has used, by name. */
  function DirNames(p: Program, dirs: seq<(int, nat)>): (names: seq<string>)
    requires forall i :: 0 <= i < |dirs| ==> dirs[i].0 in p.steps
    ensures |names| == |dirs|
  {
    seq(|dirs|, i requires 0 <= i < |dirs| => DirName(dirs[i].0, StepId(p.steps[dirs[i].0], dirs[i].0), dirs[i].1))
  }

  /** The directories used so far: steps of the program, each with an invocation below the
      step's counter, no pair twice. It holds at the end of a run as well as at loop heads. */
  ghost predicate DirsOk(p: Program, s: State) {
    && Keyed(p, s)
    && (forall i :: 0 <= i < |s.dirs| ==> s.dirs[i].0 in p.steps && s.dirs[i].1 < s.invocations[s.dirs[i].0])
    && Distinct(s.dirs)
  }

  lemma {:induction false} StepKeepsDirs(p: Program, c: Choice, s: State)
    requires Valid(p) && DirsOk(p, s) && s.status.Running?
    ensures DirsOk(p, Step(p, c, s))
  {
    hide Step, RunStep, Valid, GotoNext, Drawn;
    var n := s.status.ptr;
    StepIs(p, c, s);
    if WithinLimits(p, s) && p.steps[n].kind != Goto {
      RunStepDirs(p, n, c.outcome, Counting(s, n));
      NewDir(s.dirs, n, s.invocations);
    }
  }

  lemma {:induction false} NewDir(dirs: seq<(int, nat)>, n: int, invocations: map<int, nat>)
    requires Distinct(dirs) && n in invocations
    requires forall i :: 0 <= i < |dirs| ==> dirs[i].0 in invocations && dirs[i].1 < invocations[dirs[i].0]
    ensures Distinct(dirs + [(n, invocations[n])])
  {
    assert forall i :: 0 <= i < |dirs| ==> dirs[i] != (n, invocations[n]);
  }

  lemma {:induction false} RunStepDirs(p: Program, n: int, outcome: Outcome, s: State)
    requires Valid(p) && Keyed(p, s) && n in p.steps
    ensures var s' := RunStep(p, n, outcome, s);
      && s'.dirs == s.dirs + [(n, s.invocations[n])] && s'.invocations == s.invocations[n := s.invocations[n] + 1]
  {
    hide Valid, After;
  }

  lemma {:induction false} RunKeepsDirs(p: Program, input: string, env: nat -> Choice, k: nat)
    requires Valid(p)
    ensures DirsOk(p, Run(p, input, env, k))
  {
    hide *;
    if k == 0 {
      RunNext(p, input, env, 0);
      StartHasNoDirs(p, input);
    } else {
      RunNext(p, input, env, k - 1);
      RunKeepsDirs(p, input, env, k - 1);
      var s := Run(p, input, env, k - 1);
      if s.status.Running? {
        StepKeepsDirs(p, env(k - 1), s);
      }
    }
  }

  lemma {:induction false} StartHasNoDirs(p: Program, input: string)
    ensures DirsOk(p, Start(p, input))
  {
  }

  /** No two step invocations of a run ever share a directory, however the run ends; the
      invocation that failed is among them. */
  lemma {:induction false} RunDirsDistinct(p: Program, input: string, env: nat -> Choice, k: nat)
    requires Valid(p)
    ensures var dirs := Run(p, input, env, k).dirs;
      && (forall i :: 0 <= i < |dirs| ==> dirs[i].0 in p.steps)
      && Distinct(DirNames(p, dirs))
  {
    RunKeepsDirs(p, input, env, k);
    var dirs := Run(p, input, env, k).dirs;
    var names := DirNames(p, dirs);
    hide Run, DirName, StepId;
    forall i, j | 0 <= i < j < |names|
      ensures names[i] != names[j]
    {
      if names[i] == names[j] {
        DirNameInjective(p.steps, dirs[i].0, dirs[i].1, dirs[j].0, dirs[j].1);
      }
    }
  }
}
