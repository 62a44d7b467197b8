/**
 begin_op(), log_write() and end_op() as steps of any number of concurrent
 operations on the in-memory log header.
 */
module Reservation {
  import opened Blocks
  import opened RedoLog

  /** `open` holds, for each operation in progress, the blocks it has logged. */
  datatype Ledger = Ledger(lh: seq<U32>, open: seq<set<nat>>, committing: bool)

  datatype Step =
    | Begin
    | LogWrite(op: nat, b: U32)
    | End(op: nat)
    | Committed

  datatype Outcome = Next(s: Ledger) | Sleep | Panic

  const EMPTY := Ledger([], [], false)

  /** log_write(), with the size test before the search for an absorbing entry. */
  function DoWrite(s: Ledger, size: nat, op: nat, b: U32): (o: Outcome)
    requires op < |s.open|
  {
    if |s.lh| >= LOGSIZE || |s.lh| + 1 >= size then Panic
    else Next(s.(lh := if b in s.lh then s.lh else s.lh + [b], open := s.open[op := s.open[op] + {b as nat}]))
  }

  function Do(s: Ledger, size: nat, step: Step): (o: Outcome)
    requires (step.LogWrite? || step.End?) ==> step.op < |s.open|
    requires step.Committed? ==> s.committing
  {
    match step
    case Begin =>
      if s.committing || |s.lh| + (|s.open| + 1) * MAXOPBLOCKS > LOGSIZE then Sleep
      else Next(s.(open := s.open + [{}]))
    case LogWrite(op, b) => DoWrite(s, size, op, b)
    case End(op) =>
      if s.committing then Panic
      else Next(s.(open := s.open[..op] + s.open[op + 1..], committing := |s.open| == 1))
    case Committed => Next(s.(lh := [], committing := false))
  }

  /** Blocks the open operations may still add. */
  function Slack(open: seq<set<nat>>): (n: int) {
    if open == [] then 0 else MAXOPBLOCKS - |open[0]| + Slack(open[1..])
  }

  ghost predicate Within(s: Ledger) {
    && Distinct(s.lh)
    && (forall i :: 0 <= i < |s.open| ==> |s.open[i]| <= MAXOPBLOCKS && forall b :: b in s.open[i] ==> b in s.lh)
    && |s.lh| + Slack(s.open) <= LOGSIZE
    && (s.committing ==> s.open == [])
  }

  /** What a file-system call promises: at most MAXOPBLOCKS distinct blocks, between begin and end. */
  ghost predicate Fair(s: Ledger, step: Step) {
    match step
    case Begin => true
    case LogWrite(op, b) => op < |s.open| && |s.open[op] + {b as nat}| <= MAXOPBLOCKS
    case End(op) => op < |s.open|
    case Committed => s.committing
  }

  lemma {:induction false} SlackBounds(open: seq<set<nat>>)
    requires forall i :: 0 <= i < |open| ==> |open[i]| <= MAXOPBLOCKS
    ensures 0 <= Slack(open) <= |open| * MAXOPBLOCKS
  {
    if open != [] {
      SlackBounds(open[1..]);
    }
  }

  lemma {:induction false} SlackUpdate(open: seq<set<nat>>, i: nat, x: set<nat>)
    requires i < |open|
    ensures Slack(open[i := x]) == Slack(open) + |open[i]| - |x|
  {
    if i == 0 {
      assert open[i := x][1..] == open[1..];
    } else {
      assert open[i := x][1..] == open[1..][i - 1 := x];
      SlackUpdate(open[1..], i - 1, x);
    }
  }

  lemma {:induction false} SlackRemove(open: seq<set<nat>>, i: nat)
    requires i < |open|
    ensures Slack(open[..i] + open[i + 1..]) == Slack(open) - (MAXOPBLOCKS - |open[i]|)
  {
    if i == 0 {
      assert open[..i] + open[i + 1..] == open[1..];
    } else {
      assert (open[..i] + open[i + 1..])[1..] == open[1..][..i - 1] + open[1..][i..];
      SlackRemove(open[1..], i - 1);
    }
  }

  lemma {:induction false} SlackAppend(open: seq<set<nat>>)
    ensures Slack(open + [{}]) == Slack(open) + MAXOPBLOCKS
  {
    if open != [] {
      assert (open + [{}])[1..] == open[1..] + [{}];
      SlackAppend(open[1..]);
    } else {
      assert open + [{}] == [{}];
    }
  }

  /** An operation that may still add a block finds room for it. */
  lemma {:induction false} RoomForNew(open: seq<set<nat>>, i: nat)
    requires i < |open|
    requires forall k :: 0 <= k < |open| ==> |open[k]| <= MAXOPBLOCKS
    ensures Slack(open) >= MAXOPBLOCKS - |open[i]|
  {
    if i == 0 {
      SlackBounds(open[1..]);
    } else {
      RoomForNew(open[1..], i - 1);
    }
  }

  lemma WriteWithin(s: Ledger, size: nat, op: nat, b: U32)
    requires Within(s) && Fair(s, LogWrite(op, b))
    ensures DoWrite(s, size, op, b).Next? ==> Within(DoWrite(s, size, op, b).s)
    ensures b !in s.lh ==> |s.lh| < LOGSIZE
  {
    RoomForNew(s.open, op);
    var more := s.open[op] + {b as nat};
    assert b in s.open[op] ==> more == s.open[op];
    assert b !in s.open[op] ==> |more| == |s.open[op]| + 1;
    SlackUpdate(s.open, op, more);
    hide Slack;
    if DoWrite(s, size, op, b).Next? {
      var t := DoWrite(s, size, op, b).s;
      forall i | 0 <= i < |t.open|
        ensures |t.open[i]| <= MAXOPBLOCKS && forall c :: c in t.open[i] ==> c in t.lh
      {
      }
    }
  }

  /**
   One step keeps the reservation; a block that is new to the log meets the size
   panic exactly when the log area is too small, and end_op() never its own panic.
   */
  lemma StepWithin(s: Ledger, size: nat, step: Step)
    requires Within(s) && Fair(s, step)
    ensures Do(s, size, step).Next? ==> Within(Do(s, size, step).s)
    ensures |s.lh| <= LOGSIZE && (step.LogWrite? && step.b !in s.lh ==> |s.lh| < LOGSIZE)
    ensures step.LogWrite? ==> (Do(s, size, step).Panic? <==> |s.lh| + 1 >= size || (|s.lh| == LOGSIZE && step.b in s.lh))
    ensures step.End? ==> Do(s, size, step).Next?
  {
    SlackBounds(s.open);
    match step
    case Begin =>
      SlackAppend(s.open);
    case LogWrite(op, b) =>
      WriteWithin(s, size, op, b);
    case End(op) =>
      SlackRemove(s.open, op);
    case Committed =>
  }

  /** A run: each step is a promised one; operations that must sleep simply wait. */
  ghost predicate Run(s: Ledger, size: nat, steps: seq<Step>, t: Ledger)
    decreases |steps|
  {
    if steps == [] then s == t
    else
      && Fair(s, steps[0])
      && match Do(s, size, steps[0])
         case Next(r) => Run(r, size, steps[1..], t)
         case Sleep => Run(s, size, steps[1..], t)
         case Panic => false
  }

  /** Safety over every run from boot. */
  lemma {:induction false} RunWithin(s: Ledger, size: nat, steps: seq<Step>, t: Ledger)
    requires Within(s) && Run(s, size, steps, t)
    ensures Within(t)
    decreases |steps|
  {
    if steps != [] {
      StepWithin(s, size, steps[0]);
      match Do(s, size, steps[0])
      case Next(r) => RunWithin(r, size, steps[1..], t);
      case Sleep => RunWithin(s, size, steps[1..], t);
    }
  }

  /**
   From boot, whatever ran before: a promised step panics exactly for a write when
   the log area is full, or for an absorbed write when the header is.
   */
  lemma RunPanicIff(size: nat, steps: seq<Step>, t: Ledger, step: Step)
    requires Run(EMPTY, size, steps, t) && Fair(t, step)
    ensures Do(t, size, step).Panic? <==>
              step.LogWrite? && (|t.lh| + 1 >= size || (|t.lh| == LOGSIZE && step.b in t.lh))
  {
    RunWithin(EMPTY, size, steps, t);
    StepWithin(t, size, step);
  }

  // ---------------------------------------------------- the absorption panic

  lemma {:induction false} RunAppend(s: Ledger, size: nat, steps: seq<Step>, t: Ledger, step: Step, u: Ledger)
    requires Run(s, size, steps, t) && Fair(t, step) && Do(t, size, step) == Next(u)
    ensures Run(s, size, steps + [step], u)
    decreases |steps|
  {
    if steps == [] {
      assert steps + [step] == [step];
      assert Run(u, size, [], u);
    } else {
      assert (steps + [step])[1..] == steps[1..] + [step];
      match Do(s, size, steps[0])
      case Next(r) => RunAppend(r, size, steps[1..], t, step, u);
      case Sleep => RunAppend(s, size, steps[1..], t, step, u);
    }
  }

  function Part(n: nat, lo: nat): (k: nat) { if n <= lo then 0 else if n < lo + 10 then n - lo else 10 }

  /** Three operations have logged blocks 0..n-1, ten of each in turn. */
  ghost predicate Filled(s: Ledger, n: nat) {
    && !s.committing && |s.lh| == n && |s.open| == 3
    && (forall b :: b in s.lh ==> b < n)
    && (forall k :: 0 <= k < 3 ==> |s.open[k]| == Part(n, 10 * k) && forall b :: b in s.open[k] ==> b < n)
  }

  function Turn(n: nat): (op: nat) { if n < 10 then 0 else if n < 20 then 1 else 2 }

  lemma FillOne(size: nat, s: Ledger, n: nat) returns (t: Ledger)
    requires n < LOGSIZE && n + 1 < size && Filled(s, n)
    ensures Fair(s, LogWrite(Turn(n), n)) && Do(s, size, LogWrite(Turn(n), n)) == Next(t) && Filled(t, n + 1)
  {
    var op := Turn(n);
    assert |s.open[op] + {n}| == |s.open[op]| + 1;
    t := DoWrite(s, size, op, n).s;
  }

  lemma {:induction false} Fill(size: nat, n: nat) returns (steps: seq<Step>, s: Ledger)
    requires n <= LOGSIZE && (n == 0 || n < size)
    ensures Run(EMPTY, size, steps, s) && Filled(s, n)
  {
    if n == 0 {
      var s1, s2 := EMPTY.(open := [{}]), EMPTY.(open := [{}, {}]);
      s := EMPTY.(open := [{}, {}, {}]);
      assert Do(EMPTY, size, Begin) == Next(s1) && Do(s1, size, Begin) == Next(s2) && Do(s2, size, Begin) == Next(s);
      assert Run(EMPTY, size, [], EMPTY);
      RunAppend(EMPTY, size, [], EMPTY, Begin, s1);
      RunAppend(EMPTY, size, [] + [Begin], s1, Begin, s2);
      RunAppend(EMPTY, size, [] + [Begin] + [Begin], s2, Begin, s);
      steps := [] + [Begin] + [Begin] + [Begin];
    } else {
      var before, r := Fill(size, n - 1);
      s := FillOne(size, r, n - 1);
      RunAppend(EMPTY, size, before, r, LogWrite(Turn(n - 1), n - 1), s);
      steps := before + [LogWrite(Turn(n - 1), n - 1)];
    }
  }

  /**
   The size test comes before absorption: three operations that each stay
   within MAXOPBLOCKS can fill the log, and then rewriting an already logged
   block panics.
   */
  lemma AbsorptionCanPanic(size: nat) returns (steps: seq<Step>, s: Ledger, again: Step)
    requires size > LOGSIZE
    ensures Run(EMPTY, size, steps, s) && Within(s)
    ensures again.LogWrite? && Fair(s, again) && again.b in s.lh
    ensures Do(s, size, again).Panic?
  {
    hide Run;
    steps, s := Fill(size, LOGSIZE);
    RunWithin(EMPTY, size, steps, s);
    var b :| b in s.open[0];
    assert s.open[0] + {b} == s.open[0];
    again := LogWrite(0, b);
  }

  /** No run of operations within their budgets is refused a block that is new to the log. */
  ghost predicate NewFits(size: nat) {
    forall steps, t, step ::
      Run(EMPTY, size, steps, t) && Fair(t, step) && step.LogWrite? && step.b !in t.lh ==> Do(t, size, step).Next?
  }

  /** The reservation is enough exactly when the log area has a block for the header and LOGSIZE more. */
  lemma NewFitsIff(size: nat)
    ensures NewFits(size) <==> size > LOGSIZE
  {
    hide Run;
    if size > LOGSIZE {
      forall steps, t, step | Run(EMPTY, size, steps, t) && Fair(t, step) && step.LogWrite? && step.b !in t.lh
        ensures Do(t, size, step).Next?
      {
        RunPanicIff(size, steps, t, step);
        RunWithin(EMPTY, size, steps, t);
        StepWithin(t, size, step);
      }
    } else {
      var steps, t, step := SmallPanics(size);
      assert !Do(t, size, step).Next?;
    }
  }

  /** A log area without room for LOGSIZE blocks: a run of three operations within budget that meets the panic. */
  lemma SmallPanics(size: nat) returns (steps: seq<Step>, t: Ledger, step: Step)
    requires size <= LOGSIZE
    ensures Run(EMPTY, size, steps, t) && Fair(t, step) && step.LogWrite? && step.b !in t.lh && Do(t, size, step).Panic?
  {
    hide Run;
    var n := if size == 0 then 0 else size - 1;
    steps, t := Fill(size, n);
    step := LogWrite(Turn(n), n);
    assert |t.open[Turn(n)] + {n}| == |t.open[Turn(n)]| + 1;
  }
}
