/** The interpreter of a flattened chain: the step loop of `execute_chain_job`. What a step
    runner returns is arbitrary, and so is the alternative drawn in each iteration. */
module ChainRun {
  import opened Prelude
  import opened ChainModels

  const MAX_TOTAL_RUNS := 2000

  /** The table the loop is driven by, and the step numbers in ascending order. */
  datatype Program = Program(steps: map<int, ChainStep>, order: seq<int>)

  // ---- building the table ----

  /** `{s.number: s for s in flat_steps}` */
  function ByNumber(flat: seq<ChainStep>): map<int, ChainStep> {
    if flat == [] then map[]
    else ByNumber(flat[..|flat| - 1])[flat[|flat| - 1].number := flat[|flat| - 1]]
  }

  function Insert(order: seq<int>, n: int): seq<int> {
    if order == [] || n < order[0] then [n] + order
    else if n == order[0] then order
    else [order[0]] + Insert(order[1..], n)
  }

  /** `sorted(step_by_number.keys())` */
  function SortedNumbers(flat: seq<ChainStep>): seq<int> {
    if flat == [] then [] else Insert(SortedNumbers(flat[..|flat| - 1]), flat[|flat| - 1].number)
  }

  function ProgramOf(flat: seq<ChainStep>): Program {
    Program(ByNumber(flat), SortedNumbers(flat))
  }

  ghost predicate Increasing(s: seq<int>) {
    forall i, j :: 0 <= i < j < |s| ==> s[i] < s[j]
  }

  ghost predicate Valid(p: Program) {
    && Increasing(p.order)
    && (forall n :: n in p.order <==> n in p.steps)
    && (forall n :: n in p.steps ==> p.steps[n].visitCap >= 1 && p.steps[n].alternatives != [])
  }

  lemma {:induction false} InsertSorted(order: seq<int>, n: int)
    requires Increasing(order)
    ensures Increasing(Insert(order, n))
    ensures forall m :: m in Insert(order, n) <==> m in order || m == n
  {
    if order != [] && n > order[0] {
      InsertSorted(order[1..], n);
      var rest := Insert(order[1..], n);
      assert order == [order[0]] + order[1..];
      forall i | 0 <= i < |rest|
        ensures order[0] < rest[i]
      {
        assert rest[i] in order[1..] || rest[i] == n;
      }
      assert Increasing([order[0]] + rest);
    }
  }

  lemma {:induction false} ProgramIsValid(flat: seq<ChainStep>)
    requires forall i :: 0 <= i < |flat| ==> flat[i].visitCap >= 1 && flat[i].alternatives != []
    ensures Valid(ProgramOf(flat))
  {
    if flat != [] {
      ProgramIsValid(flat[..|flat| - 1]);
      InsertSorted(SortedNumbers(flat[..|flat| - 1]), flat[|flat| - 1].number);
    }
  }

  /** With distinct numbers the table holds every flattened step; otherwise the last step with
      a number hides the others. */
  lemma {:induction false} NoStepLost(flat: seq<ChainStep>, i: nat)
    requires i < |flat| && forall j, k :: 0 <= j < k < |flat| ==> flat[j].number != flat[k].number
    ensures flat[i].number in ByNumber(flat) && ByNumber(flat)[flat[i].number] == flat[i]
  {
    if i < |flat| - 1 {
      NoStepLost(flat[..|flat| - 1], i);
    }
  }

  /** Of several steps with one number the last counts. */
  lemma {:induction false} LastCounts(flat: seq<ChainStep>, n: int)
    ensures n in ByNumber(flat) <==> exists i :: 0 <= i < |flat| && flat[i].number == n
    ensures n in ByNumber(flat) ==>
      exists i :: 0 <= i < |flat| && flat[i] == ByNumber(flat)[n] && flat[i].number == n
                  && forall j :: i < j < |flat| ==> flat[j].number != n
  {
    if flat != [] {
      var front, last := flat[..|flat| - 1], flat[|flat| - 1];
      LastCounts(front, n);
      if last.number == n {
        assert flat[|front|].number == n;
      } else if n in ByNumber(front) {
        var i :| 0 <= i < |front| && front[i] == ByNumber(front)[n] && front[i].number == n
                 && forall j :: i < j < |front| ==> front[j].number != n;
        assert flat[i] == front[i] && forall j :: i < j < |flat| ==> flat[j].number != n;
      }
      assert forall i :: 0 <= i < |front| ==> flat[i] == front[i];
    }
  }

  // ---- one iteration ----

  /** What a step runner did: it failed, perhaps after the input was recorded, or returned. */
  datatype Outcome = Failed(recorded: Option<string>) | Done(input: string, output: string)

  /** The outside world's part in one iteration. */
  datatype Choice = Choice(pick: nat, outcome: Outcome)

  datatype Status =
    | Running(ptr: int)
    | Finished
    | NoSteps
    | MissingTarget(number: int)
    | VisitCapExceeded(number: int)
    | BudgetExceeded
    | StepFailed(number: int)

  /** One completed run of a step, for the history of a run. */
  datatype Record = Record(number: int, input: string, output: string, isLlm: bool)

  datatype State = State(
    status: Status,
    visits: map<int, nat>,
    invocations: map<int, nat>,
    inputs: map<int, seq<string>>,
    outputs: map<int, seq<string>>,
    text: string,
    totalRuns: nat,
    dirs: seq<(int, nat)>,
    history: seq<Record>)

  function Start(p: Program, input: string): State {
    State(if p.order == [] then NoSteps else Running(p.order[0]),
          map n | n in p.steps :: 0, map n | n in p.steps :: 0,
          map n | n in p.steps :: [], map n | n in p.steps :: [], input, 0, [], [])
  }

  function IndexOf(order: seq<int>, n: int): (i: nat)
    requires n in order
    ensures i < |order| && order[i] == n
  {
    if order[0] == n then 0 else 1 + IndexOf(order[1..], n)
  }

  /** Where the run goes after step `n`. */
  function After(p: Program, n: int): Status
    requires n in p.order
  {
    var i := IndexOf(p.order, n);
    if i + 1 < |p.order| then Running(p.order[i + 1]) else Finished
  }

  function RecordedOutput(kind: StepKind, output: string): string {
    if kind == Voice || kind == WriteContext then "" else output
  }

  predicate Keyed(p: Program, s: State) {
    && s.visits.Keys == p.steps.Keys && s.invocations.Keys == p.steps.Keys
    && s.inputs.Keys == p.steps.Keys && s.outputs.Keys == p.steps.Keys
  }

  /** The state with the visit and the run of this iteration counted. */
  function Counting(s: State, n: int): State
    requires n in s.visits
  {
    s.(visits := s.visits[n := s.visits[n] + 1], totalRuns := s.totalRuns + 1)
  }

  /** `_pick_alternative`, with any outcome of the draw. */
  function Drawn(step: ChainStep, pick: nat): Alternative
    requires step.alternatives != []
  {
    step.alternatives[pick % |step.alternatives|]
  }

  function GotoNext(p: Program, n: int, alt: Alternative): Status
    requires n in p.order
  {
    if alt.fallThrough then After(p, n)
    else if alt.targetStep.Some? then Running(alt.targetStep.value)
    else Finished
  }

  /** One pass through the loop body. */
  function Step(p: Program, c: Choice, s: State): (s': State)
    requires Valid(p) && Keyed(p, s) && s.status.Running?
    ensures Keyed(p, s')
  {
    var n := s.status.ptr;
    if n !in p.steps then s.(status := MissingTarget(n))
    else if s.visits[n] + 1 > p.steps[n].visitCap then
      s.(visits := s.visits[n := s.visits[n] + 1], status := VisitCapExceeded(n))
    else if s.totalRuns + 1 > MAX_TOTAL_RUNS then Counting(s, n).(status := BudgetExceeded)
    else if p.steps[n].kind == Goto then
      Counting(s, n).(status := GotoNext(p, n, Drawn(p.steps[n], c.pick)))
    else RunStep(p, n, c.outcome, Counting(s, n))
  }

  /** The part of the body that invokes a step runner. */
  function RunStep(p: Program, n: int, outcome: Outcome, s: State): (s': State)
    requires Valid(p) && Keyed(p, s) && n in p.steps
    ensures Keyed(p, s')
  {
    var kind := p.steps[n].kind;
    var started := s.(invocations := s.invocations[n := s.invocations[n] + 1],
                      dirs := s.dirs + [(n, s.invocations[n])]);
    if kind == SequenceCall || kind.UnknownKind? then started.(status := StepFailed(n))
    else
      match outcome
      case Failed(recorded) =>
        started.(status := StepFailed(n),
                 inputs := if kind != Llm && recorded.Some? then s.inputs[n := s.inputs[n] + [recorded.value]] else s.inputs)
      case Done(input, output) =>
        var read := if kind == WriteContext then s.text else input;
        var written := RecordedOutput(kind, output);
        started.(status := After(p, n),
                 inputs := s.inputs[n := s.inputs[n] + [read]],
                 outputs := s.outputs[n := s.outputs[n] + [written]],
                 text := if kind == Llm then output else s.text,
                 history := s.history + [Record(n, read, written, kind == Llm)])
  }

  /** The state after at most `k` iterations. */
  function Run(p: Program, input: string, env: nat -> Choice, k: nat): State
    requires Valid(p)
    ensures Keyed(p, Run(p, input, env, k))
  {
    if k == 0 then Start(p, input)
    else
      var s := Run(p, input, env, k - 1);
      if s.status.Running? then Step(p, env(k - 1), s) else s
  }

  // ---- what every run keeps ----

  ghost function Sum(m: map<int, nat>, order: seq<int>): nat {
    if order == [] then 0 else (if order[0] in m then m[order[0]] else 0) + Sum(m, order[1..])
  }

  lemma {:induction false} SumUpdate(m: map<int, nat>, order: seq<int>, n: int, v: nat)
    requires Increasing(order) && n in m
    ensures Sum(m[n := v], order) + (if n in order then m[n] else 0) == Sum(m, order) + (if n in order then v else 0)
  {
    if order != [] {
      SumUpdate(m, order[1..], n, v);
      assert order == [order[0]] + order[1..];
    }
  }

  lemma {:induction false} SumBound(m: map<int, nat>, caps: map<int, nat>, order: seq<int>)
    requires forall i :: 0 <= i < |order| ==> order[i] in m && order[i] in caps && m[order[i]] <= caps[order[i]]
    ensures Sum(m, order) <= Sum(caps, order)
  {
    if order != [] {
      SumBound(m, caps, order[1..]);
    }
  }

  ghost function Caps(p: Program): map<int, nat>
    requires Valid(p)
  {
    map n | n in p.steps :: if p.steps[n].visitCap < 0 then 0 else p.steps[n].visitCap
  }

  /** Upper bound on the productive iterations. */
  ghost function RunBound(p: Program): nat
    requires Valid(p)
  {
    var caps := Sum(Caps(p), p.order);
    if caps < MAX_TOTAL_RUNS then caps else MAX_TOTAL_RUNS
  }

  /** The recorded outputs (inputs) of step `n`, oldest first. */
  ghost function OutputsOf(history: seq<Record>, n: int): seq<string> {
    if history == [] then []
    else
      var last := history[|history| - 1];
      OutputsOf(history[..|history| - 1], n) + (if last.number == n then [last.output] else [])
  }

  ghost function InputsOf(history: seq<Record>, n: int): seq<string> {
    if history == [] then []
    else
      var last := history[|history| - 1];
      InputsOf(history[..|history| - 1], n) + (if last.number == n then [last.input] else [])
  }

  /** The output of the newest completed run of step `n`; empty when there is none. */
  ghost function NewestOutput(history: seq<Record>, n: int): string {
    if history == [] then ""
    else if history[|history| - 1].number == n then history[|history| - 1].output
    else NewestOutput(history[..|history| - 1], n)
  }

  ghost function NewestLlmOutput(history: seq<Record>, input: string): string {
    if history == [] then input
    else if history[|history| - 1].isLlm then history[|history| - 1].output
    else NewestLlmOutput(history[..|history| - 1], input)
  }

  /** Counters and lists of step `n` agree. */
  ghost predicate Balanced(p: Program, s: State, n: int)
    requires Keyed(p, s) && n in p.steps
  {
    && s.visits[n] <= p.steps[n].visitCap
    && s.outputs[n] == OutputsOf(s.history, n)
    && s.inputs[n] == InputsOf(s.history, n)
    && (if p.steps[n].kind == Goto then s.invocations[n] == |s.outputs[n]| == |s.inputs[n]| == 0
        else s.visits[n] == s.invocations[n] == |s.outputs[n]| == |s.inputs[n]|)
  }

  /** The invariant of the loop head. */
  ghost predicate LoopInv(p: Program, input: string, s: State) {
    && Valid(p) && Keyed(p, s)
    && s.totalRuns == Sum(s.visits, p.order) <= MAX_TOTAL_RUNS
    && (forall n :: n in p.steps ==> Balanced(p, s, n))
    && s.text == NewestLlmOutput(s.history, input)
    && |s.dirs| == |s.history|
    && (forall i :: 0 <= i < |s.history| ==> s.history[i].number in p.steps)
    && (forall i :: 0 <= i < |s.dirs| ==>
        s.dirs[i] == (s.history[i].number, |OutputsOf(s.history[..i], s.history[i].number)|))
  }

  predicate AtHead(s: State) {
    s.status.Running? || s.status.Finished?
  }

  lemma {:induction false} StartInv(p: Program, input: string)
    requires Valid(p)
    ensures LoopInv(p, input, Start(p, input))
  {
    SumOfZeros(Start(p, input).visits, p.order);
  }

  lemma {:induction false} SumOfZeros(m: map<int, nat>, order: seq<int>)
    requires forall n :: n in m ==> m[n] == 0
    ensures Sum(m, order) == 0
  {
    if order != [] {
      SumOfZeros(m, order[1..]);
    }
  }

  /** Everything in an iteration up to the call of a step runner keeps the counters in step. */
  ghost predicate Counted(p: Program, input: string, s: State, n: int) {
    && Valid(p) && Keyed(p, s) && n in p.steps
    && s.totalRuns == Sum(s.visits, p.order) <= MAX_TOTAL_RUNS
    && (forall m :: m in p.steps && m != n ==> Balanced(p, s, m))
    && 0 < s.visits[n] && Balanced(p, s.(visits := s.visits[n := s.visits[n] - 1]), n)
    && s.visits[n] <= p.steps[n].visitCap
    && s.text == NewestLlmOutput(s.history, input)
    && |s.dirs| == |s.history|
    && (forall i :: 0 <= i < |s.history| ==> s.history[i].number in p.steps)
    && (forall i :: 0 <= i < |s.dirs| ==>
        s.dirs[i] == (s.history[i].number, |OutputsOf(s.history[..i], s.history[i].number)|))
  }

  lemma {:induction false} CountKeeps(p: Program, input: string, s: State, n: int)
    requires LoopInv(p, input, s) && n in p.steps
    requires s.visits[n] + 1 <= p.steps[n].visitCap && s.totalRuns + 1 <= MAX_TOTAL_RUNS
    ensures Counted(p, input, Counting(s, n), n) && Counting(s, n).totalRuns == s.totalRuns + 1
  {
    hide Sum, OutputsOf, InputsOf, NewestLlmOutput, Increasing;
    SumUpdate(s.visits, p.order, n, s.visits[n] + 1);
    var counted := Counting(s, n);
    forall m | m in p.steps && m != n
      ensures Balanced(p, counted, m)
    {
      assert Balanced(p, s, m);
    }
    assert counted.visits[n := counted.visits[n] - 1] == s.visits;
    assert Balanced(p, s, n);
    assert counted.(visits := s.visits) == s.(totalRuns := counted.totalRuns);
  }

  lemma {:induction false} HistoryGrows(history: seq<Record>, r: Record, n: int, input: string)
    ensures OutputsOf(history + [r], n) == OutputsOf(history, n) + (if r.number == n then [r.output] else [])
    ensures InputsOf(history + [r], n) == InputsOf(history, n) + (if r.number == n then [r.input] else [])
    ensures NewestLlmOutput(history + [r], input) == (if r.isLlm then r.output else NewestLlmOutput(history, input))
  {
    assert (history + [r])[..|history|] == history;
  }

  lemma {:induction false} RecordKeeps(p: Program, input: string, s: State, n: int, i: string, o: string)
    requires Counted(p, input, s, n)
    requires p.steps[n].kind != Goto && p.steps[n].kind != SequenceCall && !p.steps[n].kind.UnknownKind?
    ensures LoopInv(p, input, RunStep(p, n, Done(i, o), s))
  {
    hide Sum, OutputsOf, InputsOf, NewestLlmOutput, Increasing;
    var s' := RunStep(p, n, Done(i, o), s);
    var r := s'.history[|s.history|];
    assert s'.history == s.history + [r];
    forall m | m in p.steps
      ensures Balanced(p, s', m)
    {
      HistoryGrows(s.history, r, m, input);
      assert m != n ==> Balanced(p, s, m);
    }
    HistoryGrows(s.history, r, n, input);
    assert Balanced(p, s.(visits := s.visits[n := s.visits[n] - 1]), n);
    forall k | 0 <= k < |s'.dirs|
      ensures s'.dirs[k] == (s'.history[k].number, |OutputsOf(s'.history[..k], s'.history[k].number)|)
    {
      assert k < |s.history| ==> s'.history[..k] == s.history[..k];
      assert s'.history[..|s.history|] == s.history;
    }
  }

  lemma {:induction false} RunStepKeeps(p: Program, input: string, s: State, n: int, outcome: Outcome)
    requires Counted(p, input, s, n) && p.steps[n].kind != Goto
    ensures var s' := RunStep(p, n, outcome, s);
      AtHead(s') ==> LoopInv(p, input, s') && s'.totalRuns == s.totalRuns
  {
    hide LoopInv, Counted;
    assert Keyed(p, s) && n in p.steps by {
      CountedParts(p, input, s, n);
    }
    if outcome.Done? && p.steps[n].kind != SequenceCall && !p.steps[n].kind.UnknownKind? {
      RecordKeeps(p, input, s, n, outcome.input, outcome.output);
    }
  }

  lemma {:induction false} LoopInvParts(p: Program, input: string, s: State)
    requires LoopInv(p, input, s)
    ensures Valid(p) && Keyed(p, s)
    ensures forall n :: n in p.steps ==> n in s.visits && n in p.order && p.steps[n].alternatives != []
  {
  }

  lemma {:induction false} CountedParts(p: Program, input: string, s: State, n: int)
    requires Counted(p, input, s, n)
    ensures Valid(p) && Keyed(p, s) && n in p.steps
  {
  }

  /** One iteration that does not end the run in an error keeps the invariant and adds exactly
      one to the total. */
  lemma {:induction false} StepKeeps(p: Program, input: string, c: Choice, s: State)
    requires LoopInv(p, input, s) && s.status.Running?
    ensures var s' := Step(p, c, s);
      AtHead(s') ==> LoopInv(p, input, s') && s'.totalRuns == s.totalRuns + 1
  {
    LoopInvParts(p, input, s);
    StepIs(p, c, s);
    hide LoopInv, Counted, Valid, Keyed, RunStep, GotoNext, Counting, Drawn, After, Step;
    var n := s.status.ptr;
    if WithinLimits(p, s) {
      CountKeeps(p, input, s, n);
      if p.steps[n].kind == Goto {
        GotoKeeps(p, input, Counting(s, n), n, GotoNext(p, n, Drawn(p.steps[n], c.pick)));
      } else {
        RunStepKeeps(p, input, Counting(s, n), n, c.outcome);
      }
    }
  }

  /** The next iteration finds its step and stays within the caps. */
  predicate WithinLimits(p: Program, s: State)
    requires Keyed(p, s) && s.status.Running?
  {
    var n := s.status.ptr;
    n in p.steps && s.visits[n] < p.steps[n].visitCap && s.totalRuns < MAX_TOTAL_RUNS
  }

  /** An iteration beyond the limits ends the run; within them it is a jump or an invocation. */
  lemma {:induction false} StepIs(p: Program, c: Choice, s: State)
    requires Valid(p) && Keyed(p, s) && s.status.Running?
    ensures var (s', n) := (Step(p, c, s), s.status.ptr);
      if WithinLimits(p, s) then
        && n in p.order && n in s.visits && p.steps[n].alternatives != [] && Keyed(p, Counting(s, n))
        && s' == (if p.steps[n].kind == Goto then Counting(s, n).(status := GotoNext(p, n, Drawn(p.steps[n], c.pick)))
                  else RunStep(p, n, c.outcome, Counting(s, n)))
      else !AtHead(s') && s'.dirs == s.dirs && s'.invocations == s.invocations
  {
    if WithinLimits(p, s) {
      StepOfProgram(p, s, s.status.ptr);
      CountingKeyed(p, s, s.status.ptr);
      hide Valid, Keyed;
      StepWithin(p, c, s);
    } else {
      StepBeyond(p, c, s);
    }
    hide *;
  }

  lemma {:induction false} StepWithin(p: Program, c: Choice, s: State)
    requires Valid(p) && Keyed(p, s) && s.status.Running? && WithinLimits(p, s)
    requires var n := s.status.ptr;
      n in p.order && n in s.visits && p.steps[n].alternatives != [] && Keyed(p, Counting(s, n))
    ensures var n := s.status.ptr;
      Step(p, c, s) == (if p.steps[n].kind == Goto then Counting(s, n).(status := GotoNext(p, n, Drawn(p.steps[n], c.pick)))
                        else RunStep(p, n, c.outcome, Counting(s, n)))
  {
    hide Valid, Keyed, RunStep, GotoNext, Drawn, Counting;
  }

  lemma {:induction false} StepBeyond(p: Program, c: Choice, s: State)
    requires Valid(p) && Keyed(p, s) && s.status.Running? && !WithinLimits(p, s)
    ensures var s' := Step(p, c, s); !AtHead(s') && s'.dirs == s.dirs && s'.invocations == s.invocations
  {
    hide Valid, RunStep, GotoNext, Drawn;
  }

  lemma {:induction false} GotoKeeps(p: Program, input: string, s: State, n: int, status: Status)
    requires Counted(p, input, s, n) && p.steps[n].kind == Goto
    ensures LoopInv(p, input, s.(status := status))
  {
    hide Sum, OutputsOf, InputsOf, NewestLlmOutput;
    forall m | m in p.steps
      ensures Balanced(p, s.(status := status), m)
    {
      assert m != n ==> Balanced(p, s, m);
    }
  }

  lemma {:induction false} RunNext(p: Program, input: string, env: nat -> Choice, k: nat)
    requires Valid(p)
    ensures var s := Run(p, input, env, k);
      && Run(p, input, env, k + 1) == (if s.status.Running? then Step(p, env(k), s) else s)
      && Run(p, input, env, 0) == Start(p, input) && Keyed(p, s)
  {
  }

  /** Every state at a loop head satisfies the invariant, whatever is drawn and returned. */
  lemma {:induction false} RunKeeps(p: Program, input: string, env: nat -> Choice, k: nat)
    requires Valid(p)
    ensures var s := Run(p, input, env, k);
      && (AtHead(s) ==> LoopInv(p, input, s))
      && (s.status.Running? ==> s.totalRuns == k)
  {
    hide LoopInv, Step, Valid;
    if k == 0 {
      StartInv(p, input);
    } else {
      RunKeeps(p, input, env, k - 1);
      var s := Run(p, input, env, k - 1);
      if s.status.Running? {
        StepKeeps(p, input, env(k - 1), s);
      }
    }
  }

  /** A run makes at most min(2000, sum of the visit caps) + 1 iterations. */
  lemma {:induction false} RunEnds(p: Program, input: string, env: nat -> Choice, k: nat)
    requires Valid(p) && k > RunBound(p)
    ensures !Run(p, input, env, k).status.Running?
  {
    RunKeeps(p, input, env, k);
    var s := Run(p, input, env, k);
    if s.status.Running? {
      VisitsWithinCaps(p, input, s);
    }
  }

  lemma {:induction false} VisitsWithinCaps(p: Program, input: string, s: State)
    requires LoopInv(p, input, s)
    ensures s.totalRuns <= RunBound(p)
  {
    hide Sum, OutputsOf, InputsOf, NewestLlmOutput;
    forall i | 0 <= i < |p.order|
      ensures p.order[i] in s.visits && s.visits[p.order[i]] <= Caps(p)[p.order[i]]
    {
      assert p.order[i] in p.order;
      assert Balanced(p, s, p.order[i]);
    }
    SumBound(s.visits, Caps(p), p.order);
  }

  lemma {:induction false} NewestIsLast(history: seq<Record>, n: int)
    ensures NewestOutput(history, n) ==
      (var all := OutputsOf(history, n); if all == [] then "" else all[|all| - 1])
  {
    if history != [] {
      NewestIsLast(history[..|history| - 1], n);
    }
  }

  /** `{{n_output}}` reads the output of the newest completed run of step `n` at every loop
      head, and the text handed on is the output of the newest completed LLM step. */
  lemma {:induction false} TokensReadNewest(p: Program, input: string, env: nat -> Choice, k: nat, n: int)
    requires Valid(p) && AtHead(Run(p, input, env, k))
    ensures var s := Run(p, input, env, k);
      && (n in p.steps ==> NewestOf(s.outputs, n) == NewestOutput(s.history, n))
      && s.text == NewestLlmOutput(s.history, input)
  {
    RunKeeps(p, input, env, k);
    var s := Run(p, input, env, k);
    if n in p.steps {
      assert Balanced(p, s, n);
      NewestIsLast(s.history, n);
    }
  }

  /** Every goto target is a step of the program. */
  ghost predicate TargetsExist(p: Program) {
    forall n, k :: n in p.steps && p.steps[n].kind == Goto && 0 <= k < |p.steps[n].alternatives| ==>
      var alt := p.steps[n].alternatives[k];
      alt.fallThrough || alt.targetStep.None? || alt.targetStep.value in p.steps
  }

  lemma {:induction false} StepFindsTarget(p: Program, c: Choice, s: State)
    requires Valid(p) && Keyed(p, s) && TargetsExist(p) && s.status.Running? && s.status.ptr in p.steps
    ensures var s' := Step(p, c, s);
      !s'.status.MissingTarget? && (s'.status.Running? ==> s'.status.ptr in p.steps)
  {
    hide Valid, TargetsExist, After, GotoNext, Drawn, RunStep, Counting;
    var n := s.status.ptr;
    AfterIsStep(p, n);
    if p.steps[n].kind == Goto {
      GotoFindsTarget(p, n, c.pick);
    } else {
      CountingKeyed(p, s, n);
      RunStepNext(p, n, c.outcome, Counting(s, n));
    }
  }

  lemma {:induction false} AfterIsStep(p: Program, n: int)
    requires Valid(p) && n in p.steps
    ensures n in p.order && p.steps[n].alternatives != []
    ensures var next := After(p, n); next.Finished? || (next.Running? && next.ptr in p.steps)
  {
    hide IndexOf;
    var next := After(p, n);
    assert next.Running? ==> next.ptr in p.order;
  }

  lemma {:induction false} GotoFindsTarget(p: Program, n: int, pick: nat)
    requires Valid(p) && TargetsExist(p) && n in p.steps && p.steps[n].kind == Goto
    ensures n in p.order && p.steps[n].alternatives != []
    ensures var next := GotoNext(p, n, Drawn(p.steps[n], pick)); next.Finished? || (next.Running? && next.ptr in p.steps)
  {
    AfterIsStep(p, n);
    var k := pick % |p.steps[n].alternatives|;
    assert 0 <= k < |p.steps[n].alternatives| && Drawn(p.steps[n], pick) == p.steps[n].alternatives[k];
    hide Valid, After, Drawn;
  }

  lemma {:induction false} RunStepNext(p: Program, n: int, outcome: Outcome, s: State)
    requires Valid(p) && Keyed(p, s) && n in p.steps
    ensures n in p.order
    ensures var s' := RunStep(p, n, outcome, s); s'.status == After(p, n) || s'.status == StepFailed(n)
  {
    hide After;
  }

  /** A program whose gotos name existing steps never runs into a missing one. */
  lemma {:induction false} NoMissingTarget(p: Program, input: string, env: nat -> Choice, k: nat)
    requires Valid(p) && TargetsExist(p)
    ensures var s := Run(p, input, env, k);
      !s.status.MissingTarget? && (s.status.Running? ==> s.status.ptr in p.steps)
  {
    hide *;
    if k == 0 {
      RunNext(p, input, env, 0);
      StartsAtStep(p, input);
    } else {
      RunNext(p, input, env, k - 1);
      NoMissingTarget(p, input, env, k - 1);
      var s := Run(p, input, env, k - 1);
      if s.status.Running? {
        StepFindsTarget(p, env(k - 1), s);
      }
    }
  }

  lemma {:induction false} StartsAtStep(p: Program, input: string)
    requires Valid(p)
    ensures var s := Start(p, input); !s.status.MissingTarget? && (s.status.Running? ==> s.status.ptr in p.steps)
  {
    assert p.order != [] ==> p.order[0] in p.order;
  }

  // ---- which step comes next, and what an iteration records ----

  /** Where a run goes after step `n` when nothing sends it elsewhere: to the least number of the
      table above `n`, and to the end when there is none. */
  ghost predicate GoesOn(p: Program, n: int, status: Status) {
    if exists m :: m in p.steps && m > n then
      status.Running? && status.ptr in p.steps && status.ptr > n
      && forall m :: m in p.steps && m > n ==> status.ptr <= m
    else status.Finished?
  }

  lemma {:induction false} IndexOfAt(order: seq<int>, i: nat)
    requires Increasing(order) && i < |order|
    ensures IndexOf(order, order[i]) == i
  {
    var k := IndexOf(order, order[i]);
    assert !(k < i) && !(i < k);
  }

  lemma {:induction false} AfterGoesOn(p: Program, n: int)
    requires Valid(p) && n in p.order
    ensures GoesOn(p, n, After(p, n))
  {
    var i := IndexOf(p.order, n);
    forall m | m in p.steps && m > n
      ensures i + 1 < |p.order| && p.order[i + 1] <= m
    {
      assert m in p.order;
      var j :| 0 <= j < |p.order| && p.order[j] == m;
      assert !(j < i) && j != i;
      assert j > i + 1 ==> p.order[i + 1] < p.order[j];
    }
    if i + 1 < |p.order| {
      assert p.order[i + 1] in p.order && p.order[i] < p.order[i + 1];
    }
  }

  /** Every way an iteration can end: the errors in their order, a goto to the target of the
      alternative drawn, and otherwise on to the next number of the table. */
  lemma {:induction false} IterationGoes(p: Program, c: Choice, s: State)
    requires Valid(p) && Keyed(p, s) && s.status.Running?
    ensures var (n, next) := (s.status.ptr, Step(p, c, s).status);
      if n !in p.steps then next == MissingTarget(n)
      else if s.visits[n] >= p.steps[n].visitCap then next == VisitCapExceeded(n)
      else if s.totalRuns >= 2000 then next == BudgetExceeded
      else if p.steps[n].kind == Goto then
        exists k :: 0 <= k < |p.steps[n].alternatives| && (c.pick < |p.steps[n].alternatives| ==> k == c.pick)
                    && JumpsBy(p, n, p.steps[n].alternatives[k], next)
      else if p.steps[n].kind == SequenceCall || p.steps[n].kind.UnknownKind? || c.outcome.Failed? then next == StepFailed(n)
      else GoesOn(p, n, next)
  {
    var n := s.status.ptr;
    if n in p.steps {
      StepOfProgram(p, s, n);
      AfterGoesOn(p, n);
      var k := c.pick % |p.steps[n].alternatives|;
      PickOfDraw(c.pick, |p.steps[n].alternatives|);
      assert Drawn(p.steps[n], c.pick) == p.steps[n].alternatives[k];
      hide Valid, Keyed, After, GoesOn, Drawn;
      assert JumpsBy(p, n, p.steps[n].alternatives[k], GotoNext(p, n, p.steps[n].alternatives[k]));
    }
  }

  lemma {:induction false} PickOfDraw(pick: nat, n: nat)
    requires n > 0
    ensures pick % n < n && (pick < n ==> pick % n == pick)
  {
  }

  /** A goto at `n` with this alternative leads to `next`. */
  ghost predicate JumpsBy(p: Program, n: int, alt: Alternative, next: Status) {
    if alt.fallThrough then GoesOn(p, n, next)
    else if alt.targetStep.Some? then next == Running(alt.targetStep.value)
    else next == Finished
  }

  /** The iteration calls a step runner, in a directory of its own. */
  ghost predicate Invokes(p: Program, s: State)
    requires Keyed(p, s) && s.status.Running?
  {
    WithinLimits(p, s) && p.steps[s.status.ptr].kind != Goto
  }

  /** What an iteration records: a directory for every invocation, failing or not, and for each
      that completes what was read and written, by the kind of the step. */
  lemma {:induction false} IterationRecords(p: Program, c: Choice, s: State)
    requires Valid(p) && Keyed(p, s) && s.status.Running?
    ensures var (n, s') := (s.status.ptr, Step(p, c, s));
      && s'.dirs == (if Invokes(p, s) then s.dirs + [(n, s.invocations[n])] else s.dirs)
      && (Invokes(p, s) && s'.status != StepFailed(n) ==>
          && c.outcome.Done?
          && var kind := p.steps[n].kind;
             s'.history == s.history + [Record(n, if kind == WriteContext then s.text else c.outcome.input,
                                               if kind == Voice || kind == WriteContext then "" else c.outcome.output,
                                               kind == Llm)])
      && (!Invokes(p, s) || s'.status == StepFailed(n) ==> s'.history == s.history && s'.outputs == s.outputs && s'.text == s.text)
      && (Invokes(p, s) && s'.status == StepFailed(n) && p.steps[n].kind != Llm && p.steps[n].kind != SequenceCall
          && !p.steps[n].kind.UnknownKind? && c.outcome.Failed? && c.outcome.recorded.Some? ==>
          s'.inputs == s.inputs[n := s.inputs[n] + [c.outcome.recorded.value]])
  {
    var n := s.status.ptr;
    if WithinLimits(p, s) {
      StepIs(p, c, s);
      StepOfProgram(p, s, n);
      hide Valid, Keyed, Step, Drawn, RunStep, WithinLimits;
      if p.steps[n].kind != Goto {
        RunRecords(p, n, c.outcome, Counting(s, n));
      }
    } else {
      NothingRecorded(p, c, s);
      hide Valid, Keyed, Step, Drawn, RunStep, WithinLimits;
    }
  }

  lemma {:induction false} NothingRecorded(p: Program, c: Choice, s: State)
    requires Valid(p) && Keyed(p, s) && s.status.Running? && !WithinLimits(p, s)
    ensures var s' := Step(p, c, s); s'.dirs == s.dirs && s'.history == s.history && s'.outputs == s.outputs && s'.text == s.text
  {
    hide Valid, RunStep;
  }

  /** What one invocation records. */
  lemma {:induction false} RunRecords(p: Program, n: int, outcome: Outcome, s: State)
    requires Valid(p) && Keyed(p, s) && n in p.steps && n in s.invocations && n in s.inputs
    ensures var (s', kind) := (RunStep(p, n, outcome, s), p.steps[n].kind);
      && s'.dirs == s.dirs + [(n, s.invocations[n])]
      && (s'.status != StepFailed(n) ==>
          && outcome.Done?
          && s'.history == s.history + [Record(n, if kind == WriteContext then s.text else outcome.input,
                                               if kind == Voice || kind == WriteContext then "" else outcome.output,
                                               kind == Llm)])
      && (s'.status == StepFailed(n) ==> s'.history == s.history && s'.outputs == s.outputs && s'.text == s.text)
      && (kind != Llm && kind != SequenceCall && !kind.UnknownKind? && outcome.Failed? && outcome.recorded.Some? ==>
          s'.inputs == s.inputs[n := s.inputs[n] + [outcome.recorded.value]])
  {
    NeverFailsAfter(p, n);
    hide Valid, Keyed, After;
  }

  lemma {:induction false} NeverFailsAfter(p: Program, n: int)
    requires Valid(p) && n in p.steps
    ensures n in p.order && !After(p, n).StepFailed?
  {
  }

  // ---- a chain without gotos ----

  function Numbers(history: seq<Record>): (r: seq<int>)
    ensures |r| == |history|
  {
    seq(|history|, i requires 0 <= i < |history| => history[i].number)
  }

  ghost predicate NoGotos(p: Program) {
    forall n :: n in p.steps ==> p.steps[n].kind != Goto
  }

  /** After `k` iterations without a jump the first `k` numbers have run, once each. */
  ghost predicate RanFirst(p: Program, s: State, k: nat)
    requires Valid(p) && Keyed(p, s)
  {
    && k <= |p.order| && Numbers(s.history) == p.order[..k] && s.totalRuns == k
    && (forall n :: n in p.steps ==> s.visits[n] == (if n in p.order[..k] then 1 else 0))
    && s.status == (if k < |p.order| then Running(p.order[k]) else Finished)
  }

  /** The record of this iteration, when it completes. */
  lemma {:induction false} OneMoreRecord(p: Program, c: Choice, s: State)
    requires Valid(p) && Keyed(p, s) && s.status.Running? && NoGotos(p)
    requires AtHead(Step(p, c, s))
    ensures var (n, s') := (s.status.ptr, Step(p, c, s));
      && WithinLimits(p, s) && GoesOn(p, n, s'.status)
      && Numbers(s'.history) == Numbers(s.history) + [n]
      && s'.totalRuns == s.totalRuns + 1 && Keyed(p, s') && s'.visits == s.visits[n := s.visits[n] + 1]
  {
    IterationGoes(p, c, s);
    IterationRecords(p, c, s);
    StepIs(p, c, s);
    var n := s.status.ptr;
    hide Valid, Keyed, Step, After, Drawn, GoesOn;
    assert Invokes(p, s);
    CountingKeyed(p, s, n);
    hide Counting;
    CountedVisits(p, n, c.outcome, s);
  }

  lemma {:induction false} CountedVisits(p: Program, n: int, outcome: Outcome, s: State)
    requires Valid(p) && Keyed(p, s) && n in p.steps && n in s.visits && Keyed(p, Counting(s, n))
    ensures var s' := RunStep(p, n, outcome, Counting(s, n));
      s'.totalRuns == s.totalRuns + 1 && s'.visits == s.visits[n := s.visits[n] + 1]
  {
    hide Valid, After;
  }

  lemma {:induction false} NextInOrder(p: Program, i: nat, status: Status)
    requires Valid(p) && i < |p.order| && GoesOn(p, p.order[i], status)
    ensures status == if i + 1 < |p.order| then Running(p.order[i + 1]) else Finished
  {
    var n := p.order[i];
    if i + 1 < |p.order| {
      var next := p.order[i + 1];
      assert next in p.order && n < next;
      var m := status.ptr;
      assert m in p.order;
      var j :| 0 <= j < |p.order| && p.order[j] == m;
      assert j > i;
      assert m <= next;
    } else {
      forall m | m in p.steps
        ensures m <= n
      {
        assert m in p.order;
      }
    }
  }

  lemma {:induction false} RanOneMore(p: Program, c: Choice, s: State, k: nat)
    requires Valid(p) && Keyed(p, s) && s.status.Running? && NoGotos(p)
    requires RanFirst(p, s, k) && AtHead(Step(p, c, s))
    ensures RanFirst(p, Step(p, c, s), k + 1)
  {
    hide *;
    RanAt(p, s, k);
    OneMoreRecord(p, c, s);
    NextInOrder(p, k, Step(p, c, s).status);
    RanGrows(p, s, Step(p, c, s), k);
  }

  lemma {:induction false} RanAt(p: Program, s: State, k: nat)
    requires Valid(p) && Keyed(p, s) && RanFirst(p, s, k) && s.status.Running?
    ensures k < |p.order| && s.status == Running(p.order[k]) && p.order[k] in s.visits
  {
    assert p.order[k] in p.order;
  }

  lemma {:induction false} RanGrows(p: Program, s: State, s': State, k: nat)
    requires Valid(p) && Keyed(p, s) && Keyed(p, s') && RanFirst(p, s, k) && k < |p.order|
    requires p.order[k] in s.visits && s'.visits == s.visits[p.order[k] := s.visits[p.order[k]] + 1]
    requires Numbers(s'.history) == Numbers(s.history) + [p.order[k]] && s'.totalRuns == s.totalRuns + 1
    requires s'.status == if k + 1 < |p.order| then Running(p.order[k + 1]) else Finished
    ensures RanFirst(p, s', k + 1)
  {
    var n := p.order[k];
    NotYet(p.order, k);
    hide Numbers, Increasing;
    assert p.order[..k + 1] == p.order[..k] + [n];
    assert n in p.order;
  }

  lemma {:induction false} NotYet(order: seq<int>, k: nat)
    requires Increasing(order) && k < |order|
    ensures order[k] !in order[..k]
  {
  }

  /** Without gotos a run takes the numbers of the table in ascending order, each once, from the
      least on; a finished run has taken them all. */
  lemma {:induction false} StraightRun(p: Program, input: string, env: nat -> Choice, k: nat)
    requires Valid(p) && NoGotos(p)
    ensures var s := Run(p, input, env, k);
      && (s.status.Running? ==> k < |p.order| && RanFirst(p, s, k))
      && (s.status.Finished? ==> RanFirst(p, s, |p.order|))
  {
    hide Step, RanFirst, NoGotos;
    if k == 0 {
      RunNext(p, input, env, 0);
      StartRan(p, input);
    } else {
      RunNext(p, input, env, k - 1);
      StraightRun(p, input, env, k - 1);
      var s := Run(p, input, env, k - 1);
      hide Run;
      if s.status.Running? && AtHead(Step(p, env(k - 1), s)) {
        RanOneMore(p, env(k - 1), s, k - 1);
        RanStatus(p, Step(p, env(k - 1), s), k);
      }
    }
  }

  lemma {:induction false} RanStatus(p: Program, s: State, k: nat)
    requires Valid(p) && Keyed(p, s) && RanFirst(p, s, k)
    ensures s.status.Running? ==> k < |p.order|
    ensures s.status.Finished? ==> k == |p.order|
  {
  }

  lemma {:induction false} StartRan(p: Program, input: string)
    requires Valid(p)
    ensures var s := Start(p, input); Keyed(p, s) && (s.status.Running? ==> 0 < |p.order| && RanFirst(p, s, 0)) && !s.status.Finished?
  {
  }

  /** The numbers of a finished run without gotos are those of the table, ascending. */
  lemma {:induction false} FinishedRanAll(p: Program, input: string, env: nat -> Choice, k: nat)
    requires Valid(p) && NoGotos(p) && Run(p, input, env, k).status.Finished?
    ensures var numbers := Numbers(Run(p, input, env, k).history);
      && (forall i, j :: 0 <= i < j < |numbers| ==> numbers[i] < numbers[j])
      && (forall n :: n in numbers <==> n in p.steps)
  {
    StraightRun(p, input, env, k);
    hide Run;
    assert p.order[..|p.order|] == p.order;
  }

  /** And it does finish, after one iteration for each step, when no runner fails and there are
      no more steps than the budget allows. */
  lemma {:induction false} StraightRunFinishes(p: Program, input: string, env: nat -> Choice)
    requires Valid(p) && NoGotos(p) && 0 < |p.order| <= 2000 && AllRunnable(p)
    requires forall j :: env(j).outcome.Done?
    ensures Run(p, input, env, |p.order|).status.Finished?
  {
    hide Step, Valid;
    GoesStraight(p, input, env, |p.order|);
  }

  ghost predicate AllRunnable(p: Program) {
    forall n :: n in p.steps ==> p.steps[n].kind != SequenceCall && !p.steps[n].kind.UnknownKind?
  }

  lemma {:induction false} GoesStraight(p: Program, input: string, env: nat -> Choice, k: nat)
    requires Valid(p) && NoGotos(p) && k <= |p.order| <= 2000 && 0 < |p.order| && AllRunnable(p)
    requires forall j :: env(j).outcome.Done?
    ensures RanFirst(p, Run(p, input, env, k), k)
  {
    hide Step, RanFirst, NoGotos, Valid, AllRunnable;
    if k == 0 {
      RunNext(p, input, env, 0);
      StartRuns(p, input);
      StartRan(p, input);
    } else {
      GoesStraight(p, input, env, k - 1);
      RunNext(p, input, env, k - 1);
      var s := Run(p, input, env, k - 1);
      hide Run;
      StraightStep(p, env(k - 1), s, k - 1);
      RanOneMore(p, env(k - 1), s, k - 1);
    }
  }

  lemma {:induction false} StartRuns(p: Program, input: string)
    ensures p.order != [] ==> Start(p, input).status.Running?
  {
  }

  lemma {:induction false} StraightStep(p: Program, c: Choice, s: State, k: nat)
    requires Valid(p) && Keyed(p, s) && NoGotos(p) && RanFirst(p, s, k) && k < |p.order| <= 2000
    requires AllRunnable(p) && c.outcome.Done?
    ensures s.status.Running? && AtHead(Step(p, c, s))
  {
    var n := p.order[k];
    assert n in p.order && n !in p.order[..k];
    IterationGoes(p, c, s);
    hide Step, Valid;
  }

  // ---- the loop itself ----

  /** `execute_chain_job` from the flattened steps on. */
  method Execute(flat: seq<ChainStep>, input: string, env: nat -> Choice) returns (final: State, ghost iterations: nat)
    requires forall i :: 0 <= i < |flat| ==> flat[i].visitCap >= 1 && flat[i].alternatives != []
    ensures Valid(ProgramOf(flat))
    ensures final == Run(ProgramOf(flat), input, env, iterations) && !final.status.Running?
    ensures iterations <= RunBound(ProgramOf(flat)) + 1
    ensures flat == [] <==> final.status.NoSteps?
  {
    ProgramIsValid(flat);
    SortedNonEmpty(flat);
    final, iterations := Loop(ProgramOf(flat), input, env);
  }

  method Loop(p: Program, input: string, env: nat -> Choice) returns (final: State, ghost iterations: nat)
    requires Valid(p)
    ensures final == Run(p, input, env, iterations) && !final.status.Running?
    ensures iterations <= RunBound(p) + 1
    ensures p.order == [] <==> final.status.NoSteps?
  {
    hide Step, RunBound, LoopInv, Valid, Run, Keyed;
    final := Start(p, input);
    iterations := 0;
    RunNext(p, input, env, 0);
    var k := 0;
    while final.status.Running?
      invariant Keyed(p, final) && final == Run(p, input, env, k) && iterations == k
      invariant k <= RunBound(p) + 1 && (p.order == [] <==> final.status.NoSteps?)
      decreases RunBound(p) + 1 - k
    {
      RunKeeps(p, input, env, k);
      VisitsWithinCaps(p, input, final);
      RunNext(p, input, env, k);
      final := Iterate(p, env(k), final);
      k := k + 1;
      iterations := k;
    }
  }

  lemma {:induction false} SortedNonEmpty(flat: seq<ChainStep>)
    ensures ProgramOf(flat).order == [] <==> flat == []
  {
  }

  lemma {:induction false} StepOfProgram(p: Program, s: State, n: int)
    requires Valid(p) && Keyed(p, s) && n in p.steps
    ensures n in p.order && n in s.visits && n in s.invocations && n in s.inputs && n in s.outputs
    ensures p.steps[n].alternatives != []
  {
  }

  /** The loop body up to the step runner. */
  method Iterate(p: Program, c: Choice, s: State) returns (next: State)
    requires Valid(p) && Keyed(p, s) && s.status.Running?
    ensures next == Step(p, c, s) && !next.status.NoSteps?
  {
    hide Valid, Keyed, RunStep;
    var ptr := s.status.ptr;
    if ptr !in p.steps {
      return s.(status := MissingTarget(ptr));
    }
    StepOfProgram(p, s, ptr);
    var step := p.steps[ptr];
    var visits, totalRuns := s.visits, s.totalRuns;
    visits := visits[ptr := visits[ptr] + 1];
    if visits[ptr] > step.visitCap {
      return s.(visits := visits, status := VisitCapExceeded(ptr));
    }
    totalRuns := totalRuns + 1;
    next := s.(visits := visits, totalRuns := totalRuns);
    if totalRuns > MAX_TOTAL_RUNS {
      return next.(status := BudgetExceeded);
    }
    var alt := Drawn(step, c.pick);
    if step.kind == Goto {
      var goal: Status;
      if alt.fallThrough {
        goal := After(p, ptr);
      } else {
        goal := if alt.targetStep.Some? then Running(alt.targetStep.value) else Finished;
      }
      return next.(status := goal);
    }
    assert Keyed(p, next) by {
      CountingKeyed(p, s, ptr);
    }
    next := Invoke(p, ptr, c.outcome, next);
  }

  lemma {:induction false} CountingKeyed(p: Program, s: State, n: int)
    requires Keyed(p, s) && n in s.visits
    ensures Keyed(p, Counting(s, n))
  {
  }

  /** The rest of the loop body, on the variables of the source. */
  method Invoke(p: Program, ptr: int, outcome: Outcome, s: State) returns (next: State)
    requires Valid(p) && Keyed(p, s) && ptr in p.steps
    ensures next == RunStep(p, ptr, outcome, s) && !next.status.NoSteps?
  {
    StepOfProgram(p, s, ptr);
    hide Valid, Keyed;
    var kind := p.steps[ptr].kind;
    var invocationCounter, executedDirs := s.invocations, s.dirs;
    var stepInputs, stepOutputs, textOutput := s.inputs, s.outputs, s.text;
    var invocation := invocationCounter[ptr];
    invocationCounter := invocationCounter[ptr := invocationCounter[ptr] + 1];
    executedDirs := executedDirs + [(ptr, invocation)];
    var status, history := StepFailed(ptr), s.history;
    if kind != SequenceCall && !kind.UnknownKind? {
      if outcome.Failed? {
        if kind != Llm && outcome.recorded.Some? {
          stepInputs := stepInputs[ptr := stepInputs[ptr] + [outcome.recorded.value]];
        }
      } else {
        var read := if kind == WriteContext then textOutput else outcome.input;
        var written := if kind == Voice || kind == WriteContext then "" else outcome.output;
        stepInputs := stepInputs[ptr := stepInputs[ptr] + [read]];
        stepOutputs := stepOutputs[ptr := stepOutputs[ptr] + [written]];
        if kind == Llm {
          textOutput := outcome.output;
        }
        history := history + [Record(ptr, read, written, kind == Llm)];
        status := After(p, ptr);
      }
    }
    next := State(status, s.visits, invocationCounter, stepInputs, stepOutputs, textOutput, s.totalRuns, executedDirs,
                  history);
  }
}
