/**
 The UDP server's dial loop and its jittered backoff (lib/udp/const/const.go,
 lib/udp/server/udp_server.go). Durations are int64 nanoseconds; the random draw and the outcome of
 each dial are given. As in the accept loop, done is closed at an arbitrary time: iteration `i`
 looks at it at 3i (top) and 3i + 1 (after the dial or the session), and records at 3i + 2.
 */
module UdpBackoff {
  import opened Wrappers
  import opened Text
  import opened DoneChannel

  const MILLISECOND := 1_000_000
  const MIN_BACKOFF := 50 * MILLISECOND
  const MAX_BACKOFF := 5000 * MILLISECOND
  const MAX_CONSECUTIVE_ERRORS := 10

  /** int64 arithmetic wraps around. */
  function Wrap64(n: int): int {
    (n + 0x8000_0000_0000_0000) % 0x1_0000_0000_0000_0000 - 0x8000_0000_0000_0000
  }

  /** The doubled and clamped delay, before the jitter. */
  function Base(current: int): (next: int)
    ensures MIN_BACKOFF <= next <= MAX_BACKOFF
  {
    var doubled := Wrap64(current * 2);
    var capped := if doubled > MAX_BACKOFF then MAX_BACKOFF else doubled;
    if capped < MIN_BACKOFF then MIN_BACKOFF else capped
  }

  /** The argument of rand.Int64N, which panics unless it is positive. */
  function DrawBound(current: int): (n: int)
    ensures n > 0
  {
    Base(current) / 2
  }

  /** rand.Int64N: for a positive bound, some number below it. */
  type Rand = f: int -> nat | forall n :: n > 0 ==> f(n) < n witness (n => 0)

  function NextBackoff(current: int, rand: Rand): int {
    Base(current) + (rand(DrawBound(current)) - Base(current) / 4)
  }

  /** From any int64 delay whatever, the next one lies in [37.5 ms, 6.25 s): jitter is added after the clamp. */
  lemma NextBackoffBounds(current: int, rand: Rand)
    ensures 4 * NextBackoff(current, rand) >= 3 * MIN_BACKOFF
    ensures 4 * NextBackoff(current, rand) < 5 * MAX_BACKOFF
  {
    assert rand(DrawBound(current)) < DrawBound(current);
  }

  /** The smallest and the largest draw that rand.Int64N can make. */
  function LowestDraw(): Rand {
    (n: int) => 0
  }

  function HighestDraw(): Rand {
    (n: int) => if n > 0 then n - 1 else 0
  }

  /** The documented clamp fails on both sides. */
  lemma ClampFails()
    ensures NextBackoff(0, LowestDraw()) == 37_500_000 < MIN_BACKOFF
    ensures NextBackoff(MAX_BACKOFF, HighestDraw()) == 6_249_999_999 > MAX_BACKOFF
  {
  }

  /** Whatever is drawn, the next delay lies in the documented interval. */
  ghost predicate Clamped(current: int) {
    forall rand: Rand :: MIN_BACKOFF <= NextBackoff(current, rand) <= MAX_BACKOFF
  }

  /** The int64 delays from which it does: 33.333333 ms to 2 s, directly or after the doubling wraps around. */
  predicate InClampRange(current: int) {
    || 33_333_333 <= current <= 2_000_000_000
    || 33_333_333 <= current + 0x8000_0000_0000_0000 <= 2_000_000_000
  }

  lemma ClampedByBase(current: int)
    ensures Clamped(current) <==>
      && Base(current) - Base(current) / 4 >= MIN_BACKOFF
      && Base(current) + Base(current) / 2 - 1 - Base(current) / 4 <= MAX_BACKOFF
  {
    hide Base;
    if Clamped(current) {
      assert NextBackoff(current, LowestDraw()) >= MIN_BACKOFF;
      assert NextBackoff(current, HighestDraw()) <= MAX_BACKOFF;
    }
    forall rand: Rand
      ensures Base(current) - Base(current) / 4 <= NextBackoff(current, rand)
        && NextBackoff(current, rand) <= Base(current) + Base(current) / 2 - 1 - Base(current) / 4
    {
      assert rand(DrawBound(current)) < DrawBound(current);
    }
  }

  lemma ClampedExactlyWhen(current: int)
    requires MIN_INT64 <= current <= MAX_INT64
    ensures Clamped(current) <==> InClampRange(current)
  {
    hide Clamped;
    ClampedByBase(current);
    BaseOf(current);
  }

  /** The clamped double of an int64, by the ranges in which the doubling wraps. */
  lemma BaseOf(current: int)
    requires MIN_INT64 <= current <= MAX_INT64
    ensures var d := if current >= 0x4000_0000_0000_0000 then 2 * current - 0x1_0000_0000_0000_0000
                     else if current < -0x4000_0000_0000_0000 then 2 * current + 0x1_0000_0000_0000_0000
                     else 2 * current;
      Base(current) == if d > MAX_BACKOFF then MAX_BACKOFF else if d < MIN_BACKOFF then MIN_BACKOFF else d
  {
  }

  /** A chain of delays from the reset value, each made from the one before. */
  ghost predicate Reachable(delays: seq<int>, rands: seq<Rand>) {
    && |delays| == |rands| + 1
    && delays[0] == MIN_BACKOFF
    && forall i :: 0 <= i < |rands| ==> delays[i + 1] == NextBackoff(delays[i], rands[i])
  }

  /** Growth: factor [1.5, 2.5) below 2.5 s, and a landing in [3.75 s, 6.25 s) from there on. */
  lemma OneStep(current: int, rand: Rand)
    requires MIN_BACKOFF <= current && 4 * current < 5 * MAX_BACKOFF
    ensures 2 * current <= MAX_BACKOFF ==>
      3 * current <= 2 * NextBackoff(current, rand) && 2 * NextBackoff(current, rand) < 5 * current
    ensures 2 * current >= MAX_BACKOFF ==>
      3 * MAX_BACKOFF <= 4 * NextBackoff(current, rand) < 5 * MAX_BACKOFF
    ensures NextBackoff(current, rand) >= MIN_BACKOFF
  {
    assert Wrap64(current * 2) == current * 2;
    assert rand(DrawBound(current)) < DrawBound(current);
  }

  /**
   Every delay reached from the reset value is at least 50 ms and below 6.25 s, however the draws
   fall; in particular the lower clamp is never what decides.
   */
  lemma {:induction false} ReachableBounds(delays: seq<int>, rands: seq<Rand>, i: nat)
    requires Reachable(delays, rands) && i < |delays|
    ensures MIN_BACKOFF <= delays[i] && 4 * delays[i] < 5 * MAX_BACKOFF
  {
    if i > 0 {
      ReachableBounds(delays, rands, i - 1);
      OneStep(delays[i - 1], rands[i - 1]);
    }
  }

  // ---------- the loop ----------

  /** A dial: a session that ends, or a failure with the draw for the next delay. */
  datatype DialOutcome = Session | DialError(err: string, rand: Rand)

  datatype Verdict = Waiting | Stopped | Fatal(errors: int)

  /** `streak` lists the sleeps since the last session or the start. */
  datatype LoopState = LoopState(dials: nat, locals: Locals, verdict: Option<Verdict>)

  const START := LoopState(0, Locals(0, MIN_BACKOFF, [], []), None)

  function Message(n: nat, err: string): string {
    "dial error (" + Itoa(n) + " consecutive): " + err
  }

  /** What the pointers of handleDialError refer to, and what it sleeps and records. */
  datatype Locals = Locals(errors: nat, backoff: int, streak: seq<int>, recorded: seq<string>)

  /** A dial error that is counted: fatal at the limit, otherwise one sleep and the next delay. */
  function Failed(l: Locals, err: string, rand: Rand): Locals {
    var m := l.(errors := l.errors + 1, recorded := l.recorded + [Message(l.errors + 1, err)]);
    if m.errors >= MAX_CONSECUTIVE_ERRORS then m
    else m.(streak := l.streak + [l.backoff], backoff := NextBackoff(l.backoff, rand))
  }

  function Step(s: LoopState, o: DialOutcome, closeAt: Option<nat>): LoopState {
    if s.verdict.Some? then s
    else if Closed(closeAt, 3 * s.dials) then s.(verdict := Some(Stopped))
    else
      var seen := Closed(closeAt, 3 * s.dials + 1);
      match o
      case Session =>
        LoopState(s.dials + 1, s.locals.(errors := 0, backoff := MIN_BACKOFF, streak := []),
          if seen then Some(Stopped) else None)
      case DialError(e, rand) =>
        if seen then LoopState(s.dials + 1, s.locals, Some(Stopped))
        else
          LoopState(s.dials + 1, Failed(s.locals, e, rand),
            if s.locals.errors + 1 >= MAX_CONSECUTIVE_ERRORS then Some(Fatal(s.locals.errors + 1)) else None)
  }

  function Loop(trace: seq<DialOutcome>, closeAt: Option<nat>): LoopState {
    if trace == [] then START else Step(Loop(trace[..|trace| - 1], closeAt), trace[|trace| - 1], closeAt)
  }

  function Outcome(trace: seq<DialOutcome>, closeAt: Option<nat>): Verdict {
    var s := Loop(trace, closeAt);
    if s.verdict.Some? then s.verdict.value
    else if Closed(closeAt, 3 * s.dials) then Stopped
    else Waiting
  }

  /** The same state of a loop that runs when `recorded` is on record already. */
  function After(recorded: seq<string>, s: LoopState): LoopState {
    s.(locals := s.locals.(recorded := recorded + s.locals.recorded))
  }

  lemma StepAfter(recorded: seq<string>, s: LoopState, o: DialOutcome, closeAt: Option<nat>)
    ensures Step(After(recorded, s), o, closeAt) == After(recorded, Step(s, o, closeAt))
  {
    hide NextBackoff;
    if o.DialError? {
      var m := [Message(s.locals.errors + 1, o.err)];
      assert (recorded + s.locals.recorded) + m == recorded + (s.locals.recorded + m);
    }
  }

  datatype Status = Running | Broken

  /** The loop's locals, which its helpers update through pointers, and what it sleeps and records. */
  class UdpServer {
    var status: Status
    var errors: nat
    var backoff: int
    var slept: seq<int>
    var recorded: seq<string>

    ghost function View(): Locals
      reads this
    {
      Locals(errors, backoff, slept, recorded)
    }

    constructor ()
      ensures status == Running && recorded == []
    {
      status, errors, backoff, slept, recorded := Running, 0, MIN_BACKOFF, [], [];
    }

    /** `doneSeen` is what the select before the count observes. */
    method HandleDialError(err: string, rand: Rand, doneSeen: bool) returns (cont: bool, fatal: bool)
      modifies this
      ensures doneSeen ==> !cont && !fatal && View() == old(View())
      ensures !doneSeen ==> View() == Failed(old(View()), err, rand)
      ensures !doneSeen ==> fatal == !cont == (errors >= MAX_CONSECUTIVE_ERRORS)
      ensures status == if fatal then Broken else old(status)
    {
      if doneSeen {
        return false, false;
      }
      errors := errors + 1;
      recorded := recorded + [Message(errors, err)];
      if errors >= MAX_CONSECUTIVE_ERRORS {
        status := Broken;
        return false, true;
      }
      slept := slept + [backoff];
      backoff := NextBackoff(backoff, rand);
      return true, false;
    }

    method DialAndForward(o: DialOutcome, doneSeen: bool, ghost s: LoopState, ghost closeAt: Option<nat>)
      returns (cont: bool, fatal: bool)
      requires s.verdict == None && s.locals == View()
      requires !Closed(closeAt, 3 * s.dials) && doneSeen == Closed(closeAt, 3 * s.dials + 1)
      modifies this
      ensures Step(s, o, closeAt) ==
        LoopState(s.dials + 1, View(), if cont then None else if fatal then Some(Fatal(errors)) else Some(Stopped))
      ensures status == if fatal then Broken else old(status)
      ensures fatal ==> !cont
    {
      if o.DialError? {
        cont, fatal := HandleDialError(o.err, o.rand, doneSeen);
        return;
      }
      backoff := MIN_BACKOFF;
      errors := 0;
      slept := [];
      return !doneSeen, false;
    }

    method RunForwardLoop(trace: seq<DialOutcome>, closeAt: Option<nat>) returns (verdict: Verdict)
      modifies this
      ensures verdict == Outcome(trace, closeAt)
      ensures View() == After(old(recorded), Loop(trace, closeAt)).locals
      ensures status == if verdict.Fatal? then Broken else old(status)
    {
      backoff, errors, slept := MIN_BACKOFF, 0, [];
      var i := 0;
      assert trace[..0] == [];
      while true
        invariant i <= |trace|
        invariant After(old(recorded), Loop(trace[..i], closeAt)) == LoopState(i, View(), None)
        invariant status == old(status)
        decreases |trace| - i
      {
        if Closed(closeAt, 3 * i) || i == |trace| {
          RunsOut(trace, i, closeAt);
          return if Closed(closeAt, 3 * i) then Stopped else Waiting;
        }
        LoopStep(trace, i, closeAt);
        StepAfter(old(recorded), Loop(trace[..i], closeAt), trace[i], closeAt);
        var cont, fatal := DialAndForward(trace[i], Closed(closeAt, 3 * i + 1),
                                          After(old(recorded), Loop(trace[..i], closeAt)), closeAt);
        i := i + 1;
        if !cont {
          EndedStays(trace, i, closeAt);
          return if fatal then Fatal(errors) else Stopped;
        }
      }
    }
  }

  lemma LoopStep(trace: seq<DialOutcome>, i: nat, closeAt: Option<nat>)
    requires i < |trace|
    ensures Loop(trace[..i + 1], closeAt) == Step(Loop(trace[..i], closeAt), trace[i], closeAt)
  {
    assert trace[..i + 1][..i] == trace[..i];
  }

  lemma {:induction false} EndedStays(trace: seq<DialOutcome>, k: nat, closeAt: Option<nat>)
    requires k <= |trace| && Loop(trace[..k], closeAt).verdict.Some?
    ensures Loop(trace, closeAt) == Loop(trace[..k], closeAt)
  {
    if k == |trace| {
      assert trace[..k] == trace;
    } else {
      assert trace[..|trace| - 1][..k] == trace[..k];
      EndedStays(trace[..|trace| - 1], k, closeAt);
    }
  }

  lemma RunsOut(trace: seq<DialOutcome>, k: nat, closeAt: Option<nat>)
    requires k <= |trace| && Loop(trace[..k], closeAt).verdict == None && Loop(trace[..k], closeAt).dials == k
    requires Closed(closeAt, 3 * k) || k == |trace|
    ensures Loop(trace, closeAt) == Loop(trace[..k], closeAt).(verdict := Loop(trace, closeAt).verdict)
    ensures Outcome(trace, closeAt) == if Closed(closeAt, 3 * k) then Stopped else Waiting
  {
    if k == |trace| {
      assert trace[..k] == trace;
    } else {
      LoopStep(trace, k, closeAt);
      EndedStays(trace, k + 1, closeAt);
    }
  }

  // ---------- when the loop fails ----------

  /** Dial failures since the last session. */
  function Streak(trace: seq<DialOutcome>): nat {
    if trace == [] || trace[|trace| - 1].Session? then 0 else Streak(trace[..|trace| - 1]) + 1
  }

  /** Outcome `k` is the last of ten dial failures in a row, seen with done open. */
  ghost predicate FailsAt(trace: seq<DialOutcome>, closeAt: Option<nat>, k: nat) {
    && MAX_CONSECUTIVE_ERRORS - 1 <= k < |trace|
    && !Closed(closeAt, 3 * k + 1)
    && forall i :: k - MAX_CONSECUTIVE_ERRORS < i <= k ==> trace[i].DialError?
  }

  /** A streak of at least `n` is exactly `n` failures at the end of the trace. */
  lemma {:induction false} StreakIsFailuresAtEnd(trace: seq<DialOutcome>, n: nat)
    ensures Streak(trace) >= n <==> n <= |trace| && forall i :: |trace| - n <= i < |trace| ==> trace[i].DialError?
  {
    if n > 0 && trace != [] {
      var last := |trace| - 1;
      StreakIsFailuresAtEnd(trace[..last], n - 1);
      if trace[last].DialError? && n <= |trace| && Streak(trace[..last]) >= n - 1 {
        forall i | |trace| - n <= i < |trace| ensures trace[i].DialError? {
          if i < last {
            assert trace[..last][i] == trace[i];
          }
        }
      }
    }
  }

  lemma {:induction false} LoopFollowsTrace(trace: seq<DialOutcome>, closeAt: Option<nat>)
    ensures var s := Loop(trace, closeAt);
      && s.dials <= |trace|
      && (s.verdict == None ==> s.dials == |trace| && s.locals.errors == Streak(trace) < MAX_CONSECUTIVE_ERRORS)
      && (s.verdict == Some(Stopped) ==> trace != [] && Closed(closeAt, 3 * (|trace| - 1) + 1))
      && s.verdict != Some(Waiting)
      && (s.verdict.Some? && s.verdict.value.Fatal? ==>
        s.verdict.value.errors == s.locals.errors == MAX_CONSECUTIVE_ERRORS)
  {
    if trace != [] {
      LoopFollowsTrace(trace[..|trace| - 1], closeAt);
    }
  }

  lemma LastDecides(trace: seq<DialOutcome>, closeAt: Option<nat>)
    requires trace != []
    ensures Outcome(trace, closeAt).Fatal? <==>
      Outcome(trace[..|trace| - 1], closeAt).Fatal? || FailsAt(trace, closeAt, |trace| - 1)
  {
    LoopFollowsTrace(trace[..|trace| - 1], closeAt);
    LoopFollowsTrace(trace, closeAt);
    StreakIsFailuresAtEnd(trace, MAX_CONSECUTIVE_ERRORS);
    StreakEnd(trace);
  }

  lemma StreakEnd(trace: seq<DialOutcome>)
    requires trace != []
    ensures Streak(trace) == if trace[|trace| - 1].Session? then 0 else Streak(trace[..|trace| - 1]) + 1
  {
  }

  /** The loop fails exactly at ten consecutive dial failures the last of which is seen with done open. */
  lemma {:induction false} FatalExactlyWhen(trace: seq<DialOutcome>, closeAt: Option<nat>)
    ensures Outcome(trace, closeAt).Fatal? <==> exists k: nat :: FailsAt(trace, closeAt, k)
    ensures Outcome(trace, closeAt).Fatal? ==> Outcome(trace, closeAt).errors == MAX_CONSECUTIVE_ERRORS
  {
    LoopFollowsTrace(trace, closeAt);
    if trace != [] {
      var n := |trace| - 1;
      var before := trace[..n];
      FatalExactlyWhen(before, closeAt);
      LastDecides(trace, closeAt);
      forall k: nat | k < n ensures FailsAt(trace, closeAt, k) <==> FailsAt(before, closeAt, k) {
        assert forall i :: 0 <= i <= k ==> before[i] == trace[i];
      }
      if Outcome(before, closeAt).Fatal? {
        var k: nat :| FailsAt(before, closeAt, k);
        assert FailsAt(trace, closeAt, k);
      }
    }
  }

  // ---------- which errors are recorded ----------

  /** One record for every failure, with its number since the last session and its text. */
  function Records(trace: seq<DialOutcome>): seq<string> {
    if trace == [] then []
    else
      var last := trace[|trace| - 1];
      Records(trace[..|trace| - 1]) + (if last.DialError? then [Message(Streak(trace), last.err)] else [])
  }

  lemma RecordStep(before: seq<DialOutcome>, s: LoopState, o: DialOutcome, closeAt: Option<nat>)
    requires s.verdict == None && s.dials == |before| && s.locals.errors == Streak(before)
    requires s.locals.recorded == Records(before)
    ensures var u := Step(s, o, closeAt);
      || (u.dials == s.dials + 1 && u.locals.recorded == Records(before + [o]))
      || (u.dials == s.dials && u.locals == s.locals && u.verdict == Some(Stopped))
      || (u.dials == s.dials + 1 && u.locals == s.locals && u.verdict == Some(Stopped) && o.DialError?)
  {
    hide Message, NextBackoff, Closed;
    assert (before + [o])[..|before|] == before;
    assert Records(before) + [] == Records(before);
  }

  /** `r` is the records of a loop that has taken up the first `n` outcomes of the trace. */
  ghost predicate RecordsOf(trace: seq<DialOutcome>, n: nat, verdict: Option<Verdict>, r: seq<string>) {
    && n <= |trace|
    && (|| r == Records(trace[..n])
        || (n > 0 && verdict == Some(Stopped) && trace[n - 1].DialError? && r == Records(trace[..n - 1])))
  }

  lemma RecordsOfLonger(trace: seq<DialOutcome>, o: DialOutcome, n: nat, verdict: Option<Verdict>, r: seq<string>)
    requires RecordsOf(trace, n, verdict, r)
    ensures RecordsOf(trace + [o], n, verdict, r)
  {
    hide Records;
    assert (trace + [o])[..n] == trace[..n];
    if n > 0 {
      assert (trace + [o])[..n - 1] == trace[..n - 1];
    }
  }

  /**
   The loop records every dial failure that it takes up, in order, and nothing else; the one failure that it may
   see with done closed is the last outcome, and is left out.
   */
  lemma {:induction false} EveryFailureIsRecorded(trace: seq<DialOutcome>, closeAt: Option<nat>)
    ensures var s := Loop(trace, closeAt);
      && RecordsOf(trace, s.dials, s.verdict, s.locals.recorded)
      && (s.verdict == None ==> s.dials == |trace| && s.locals.recorded == Records(trace))
  {
    hide Step, Records, RecordsOf, Streak;
    if trace == [] {
      NoRecords();
    } else {
      var before, o := trace[..|trace| - 1], trace[|trace| - 1];
      assert trace == before + [o];
      EveryFailureIsRecorded(before, closeAt);
      LoopFollowsTrace(before, closeAt);
      RecordsAdvance(before, o, Loop(before, closeAt), closeAt);
    }
  }

  lemma NoRecords()
    ensures RecordsOf([], 0, None, []) && Records([]) == []
  {
  }

  lemma RecordsAdvance(before: seq<DialOutcome>, o: DialOutcome, s: LoopState, closeAt: Option<nat>)
    requires RecordsOf(before, s.dials, s.verdict, s.locals.recorded)
    requires s.verdict == None ==>
      s.dials == |before| && s.locals.errors == Streak(before) && s.locals.recorded == Records(before)
    ensures var u := Step(s, o, closeAt);
      && RecordsOf(before + [o], u.dials, u.verdict, u.locals.recorded)
      && (u.verdict == None ==> u.dials == |before| + 1 && u.locals.recorded == Records(before + [o]))
  {
    hide Message, NextBackoff, Closed, Records;
    var all := before + [o];
    if s.verdict.Some? {
      RecordsOfLonger(before, o, s.dials, s.verdict, s.locals.recorded);
    } else {
      RecordStep(before, s, o, closeAt);
      assert all[..|before|] == before && all[..|all|] == all;
    }
  }

  /** Number and text can be read off a record. */
  lemma MessageIsInjective(n: nat, err: string, m: nat, err': string)
    requires Message(n, err) == Message(m, err')
    ensures n == m && err == err'
  {
    NumberedText("dial error (", n, " consecutive): ", err, m, err');
  }

  // ---------- what a fatal streak has slept ----------

  function Sum(xs: seq<int>): int {
    if xs == [] then 0 else Sum(xs[..|xs| - 1]) + xs[|xs| - 1]
  }

  /** The sleeps of a streak are a chain of backoffs from the reset value, one per error so far. */
  ghost predicate Chain(streak: seq<int>, next: int) {
    && (streak == [] ==> next == MIN_BACKOFF)
    && (streak != [] ==> streak[0] == MIN_BACKOFF && Follows(streak[|streak| - 1], next))
    && forall i :: 0 <= i < |streak| - 1 ==> Follows(streak[i], streak[i + 1])
  }

  ghost predicate Follows(current: int, next: int) {
    exists rand: Rand :: next == NextBackoff(current, rand)
  }

  lemma {:induction false} StreakIsChain(trace: seq<DialOutcome>, closeAt: Option<nat>)
    ensures var s := Loop(trace, closeAt);
      && Chain(s.locals.streak, s.locals.backoff)
      && (s.verdict == None ==> |s.locals.streak| == s.locals.errors)
      && (s.verdict.Some? && s.verdict.value.Fatal? ==> |s.locals.streak| == s.locals.errors - 1)
  {
    if trace != [] {
      var before := trace[..|trace| - 1];
      StreakIsChain(before, closeAt);
      LoopFollowsTrace(trace, closeAt);
      StepKeepsChain(Loop(before, closeAt), trace[|trace| - 1], closeAt);
      hide Step, Chain;
    }
  }

  lemma StepKeepsChain(s: LoopState, o: DialOutcome, closeAt: Option<nat>)
    requires Chain(s.locals.streak, s.locals.backoff)
    ensures var u := Step(s, o, closeAt);
      && Chain(u.locals.streak, u.locals.backoff)
      && (u.verdict == None ==> s.verdict == None)
      && (s.verdict.Some? ==> u == s)
      && (|s.locals.streak| == s.locals.errors && s.verdict == None ==>
        (u.verdict == None ==> |u.locals.streak| == u.locals.errors)
        && (u.verdict.Some? && u.verdict.value.Fatal? ==> |u.locals.streak| == u.locals.errors - 1))
  {
    hide NextBackoff;
    if o.DialError? {
      assert Follows(s.locals.backoff, NextBackoff(s.locals.backoff, o.rand));
    }
  }

  /** Microsecond bounds on the `i`-th sleep of a streak. */
  const LEAST: seq<int> := [50_000, 75_000, 112_500, 168_750, 253_125, 379_687, 569_530, 854_295, 1_281_442]
  const MOST: seq<int> := [50_000, 125_000, 312_500, 781_250, 1_953_125, 4_882_813, 6_250_000, 6_250_000, 6_250_000]

  predicate Between(i: nat, delay: int)
    requires i < 9
  {
    LEAST[i] * 1000 <= delay <= MOST[i] * 1000 && 4 * delay < 5 * MAX_BACKOFF
  }

  lemma StepBetween(i: nat, current: int, next: int)
    requires i < 8 && Between(i, current) && Follows(current, next)
    ensures Between(i + 1, next) && next < MOST[i + 1] * 1000
  {
    var rand: Rand :| next == NextBackoff(current, rand);
    OneStep(current, rand);
  }

  lemma {:induction false} ChainBetween(streak: seq<int>, next: int, i: nat)
    requires Chain(streak, next) && i < |streak| <= 9
    ensures Between(i, streak[i]) && (i > 0 ==> streak[i] < MOST[i] * 1000)
  {
    if i > 0 {
      ChainBetween(streak, next, i - 1);
      assert Follows(streak[i - 1], streak[i - 1 + 1]);
      StepBetween(i - 1, streak[i - 1], streak[i]);
    }
  }

  lemma SumNine(xs: seq<int>)
    requires |xs| == 9
    ensures Sum(xs) == xs[0] + xs[1] + xs[2] + xs[3] + xs[4] + xs[5] + xs[6] + xs[7] + xs[8]
  {
    SumLast(xs, 9);
    SumLast(xs, 8);
    SumLast(xs, 7);
    SumLast(xs, 6);
    SumLast(xs, 5);
    SumLast(xs, 4);
    SumLast(xs, 3);
    SumLast(xs, 2);
    SumLast(xs, 1);
    assert xs[..9] == xs;
  }

  lemma SumLast(xs: seq<int>, k: nat)
    requires 0 < k <= |xs|
    ensures Sum(xs[..k]) == Sum(xs[..k - 1]) + xs[k - 1]
    ensures Sum(xs[..0]) == 0
  {
    assert xs[..k][..k - 1] == xs[..k - 1];
  }

  /** A run that fails has slept nine times in its last streak: more than 3.7 s and less than 26.9 s in all. */
  lemma FatalStreakSleeps(trace: seq<DialOutcome>, closeAt: Option<nat>)
    requires Outcome(trace, closeAt).Fatal?
    ensures var streak := Loop(trace, closeAt).locals.streak;
      |streak| == 9 && 3700 * MILLISECOND < Sum(streak) < 26900 * MILLISECOND
  {
    LoopFollowsTrace(trace, closeAt);
    StreakIsChain(trace, closeAt);
    var s := Loop(trace, closeAt).locals;
    SumNine(s.streak);
    forall i: nat | i < 9 ensures LEAST[i] * 1000 <= s.streak[i] <= MOST[i] * 1000 {
      ChainBetween(s.streak, s.backoff, i);
    }
  }
}
