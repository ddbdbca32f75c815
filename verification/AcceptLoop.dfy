/**
 The accept loop shared by all tunnel types (lib/core/base.go). The outcomes of Accept are a given
 trace. The done channel is closed at an arbitrary moment `closeAt`, or never: iteration `i` looks
 at it at time 3i (top of the loop) and, after an error, at time 3i + 1; it records at 3i + 2.
 */
module AcceptLoop {
  import opened Wrappers
  import opened Text
  import opened DoneChannel
  import opened ErrorTracking

  datatype Outcome = Accepted(conn: nat) | RateLimited | AcceptError(err: string)

  /** Blocked: waiting in Accept with done still open. Stopped: nil is returned. */
  datatype Verdict = Blocked | Stopped | Fatal(errors: int)

  datatype LoopState = LoopState(
    calls: nat, consecutive: nat, dispatched: seq<nat>, rateLimits: nat, recorded: seq<string>, shutdowns: nat,
    verdict: Option<Verdict>)

  const START := LoopState(0, 0, [], 0, [], 0, None)

  function Message(n: nat, err: string): string {
    "accept error (" + Itoa(n) + " consecutive): " + err
  }

  /** Number and text can be read off a record: two records are equal only if both agree. */
  lemma MessageIsInjective(n: nat, err: string, m: nat, err': string)
    requires Message(n, err) == Message(m, err')
    ensures n == m && err == err'
  {
    NumberedText("accept error (", n, " consecutive): ", err, m, err');
  }

  // ---------- the loop as a function of the trace ----------

  /** handleConsecutiveError. */
  function Counted(s: LoopState, err: string, maxErrors: int): LoopState {
    var n := s.consecutive + 1;
    s.(consecutive := n, recorded := s.recorded + [Message(n, err)],
       verdict := if n >= maxErrors then Some(Fatal(n)) else None)
  }

  /** One more outcome, unless the loop has ended. */
  function Step(s: LoopState, o: Outcome, closeAt: Option<nat>, maxErrors: int): LoopState {
    if s.verdict.Some? then s
    else if Closed(closeAt, 3 * s.calls) then s.(verdict := Some(Stopped))
    else
      var n := s.(calls := s.calls + 1);
      match o
      case Accepted(c) => n.(consecutive := 0, dispatched := s.dispatched + [c])
      case RateLimited => n.(rateLimits := s.rateLimits + 1)
      case AcceptError(e) =>
        if Closed(closeAt, 3 * s.calls + 1) then n.(shutdowns := s.shutdowns + 1, verdict := Some(Stopped))
        else Counted(n, e, maxErrors)
  }

  function Loop(trace: seq<Outcome>, closeAt: Option<nat>, maxErrors: int): LoopState {
    if trace == [] then START
    else Step(Loop(trace[..|trace| - 1], closeAt, maxErrors), trace[|trace| - 1], closeAt, maxErrors)
  }

  /** What the loop has come to when the trace is used up. */
  function Outcomes(trace: seq<Outcome>, closeAt: Option<nat>, maxErrors: int): Verdict {
    var s := Loop(trace, closeAt, maxErrors);
    if s.verdict.Some? then s.verdict.value
    else if Closed(closeAt, 3 * s.calls) then Stopped
    else Blocked
  }

  // ---------- the code ----------

  datatype Status = Idle | Running | Failed

  /** TunnelBase: status, bounded error history and the metrics it feeds. */
  class TunnelBase {
    const name: string
    const metered: bool
    const tracker: ErrorTracker
    var status: Status
    var errorCount: int
    var rateLimitHits: int

    /** With metrics attached from the start, the counter counts everything ever recorded. */
    ghost predicate Valid()
      reads this, tracker, tracker.buf
    {
      tracker.Valid() && errorCount == if metered then |tracker.history| else 0
    }

    constructor (name: string, metered: bool)
      ensures Valid() && fresh(tracker) && fresh(tracker.buf) && tracker.history == []
      ensures this.name == name && this.metered == metered && rateLimitHits == 0
    {
      this.name, this.metered := name, metered;
      tracker := new ErrorTracker();
      status, errorCount, rateLimitHits := Idle, 0, 0;
    }

    method RecordError(err: string)
      requires Valid()
      modifies this`errorCount, tracker, tracker.buf
      ensures Valid() && tracker.history == old(tracker.history) + [NewError(name, err)]
      ensures tracker.buf == old(tracker.buf) || fresh(tracker.buf)
      ensures metered ==> tracker.len == if errorCount <= MAX_ERRORS then errorCount else MAX_ERRORS
    {
      tracker.Record(name, err);
      if metered {
        errorCount := errorCount + 1;
      }
      assert |tracker.buf[..tracker.len]| == tracker.len;
    }

    method HandleRateLimitError(o: Outcome) returns (limited: bool)
      modifies this`rateLimitHits
      ensures limited == o.RateLimited?
      ensures rateLimitHits == old(rateLimitHits) + if limited && metered then 1 else 0
    {
      if o.RateLimited? {
        if metered {
          rateLimitHits := rateLimitHits + 1;
        }
        return true;
      }
      return false;
    }

    method HandleConsecutiveError(err: string, consecutive: nat, maxErrors: int)
      returns (errors: nat, cont: bool, fatal: bool)
      requires Valid()
      modifies this`status, this`errorCount, tracker, tracker.buf
      ensures Valid() && errors == consecutive + 1 && fatal == !cont == (errors >= maxErrors)
      ensures tracker.history == old(tracker.history) + [NewError(name, Message(errors, err))]
      ensures tracker.buf == old(tracker.buf) || fresh(tracker.buf)
      ensures status == if fatal then Failed else old(status)
    {
      errors := consecutive + 1;
      RecordError(Message(errors, err));
      if errors >= maxErrors {
        status := Failed;
        return errors, false, true;
      }
      return errors, true, false;
    }

    /** An outcome that is not a connection; `doneSeen` is what the select after it observes. */
    method HandleAcceptError(o: Outcome, consecutive: nat, maxErrors: int, doneSeen: bool)
      returns (errors: nat, cont: bool, fatal: bool)
      requires Valid() && !o.Accepted?
      modifies this, tracker, tracker.buf
      ensures Valid() && (tracker.buf == old(tracker.buf) || fresh(tracker.buf))
      ensures rateLimitHits == old(rateLimitHits) + if o.RateLimited? && metered then 1 else 0
      ensures o.RateLimited? ==> cont && !fatal
      ensures o.AcceptError? && doneSeen ==> !cont && !fatal
      ensures o.RateLimited? || doneSeen ==>
        errors == consecutive && tracker.history == old(tracker.history) && status == old(status)
      ensures o.AcceptError? && !doneSeen ==>
        && errors == consecutive + 1 && fatal == !cont == (errors >= maxErrors)
        && tracker.history == old(tracker.history) + [NewError(name, Message(errors, o.err))]
        && status == (if fatal then Failed else old(status))
    {
      var limited := HandleRateLimitError(o);
      if limited {
        return consecutive, true, false;
      }
      if doneSeen {
        return consecutive, false, false;
      }
      errors, cont, fatal := HandleConsecutiveError(o.err, consecutive, maxErrors);
    }

    /** One Accept: `s` is the state of the loop before it, and the effects are those of one Step. */
    method AcceptAndDispatch(o: Outcome, consecutive: nat, dispatched: seq<nat>, maxErrors: int, doneSeen: bool,
                             ghost s: LoopState, ghost closeAt: Option<nat>)
      returns (errors: nat, conns: seq<nat>, cont: bool, fatal: bool)
      requires Valid() && s.verdict == None && s.consecutive == consecutive && s.dispatched == dispatched
      requires !Closed(closeAt, 3 * s.calls) && doneSeen == Closed(closeAt, 3 * s.calls + 1)
      modifies this, tracker, tracker.buf
      ensures Valid() && (tracker.buf == old(tracker.buf) || fresh(tracker.buf))
      ensures var t := Step(s, o, closeAt, maxErrors);
        && errors == t.consecutive && conns == t.dispatched && t.calls == s.calls + 1
        && t.verdict == (if cont then None else if fatal then Some(Fatal(errors)) else Some(Stopped))
        && rateLimitHits == old(rateLimitHits) + (if metered then t.rateLimits - s.rateLimits else 0)
        && status == (if fatal then Failed else old(status)) && (fatal ==> !cont)
      ensures forall base :: old(tracker.history) == base + Named(name, s.recorded) ==>
        tracker.history == base + Named(name, Step(s, o, closeAt, maxErrors).recorded)
    {
      if o.Accepted? {
        return 0, dispatched + [o.conn], true, false;
      }
      conns := dispatched;
      NamedStep(name, s.recorded, if o.AcceptError? then Message(consecutive + 1, o.err) else "");
      errors, cont, fatal := HandleAcceptError(o, consecutive, maxErrors, doneSeen);
    }

    /** The loop: its verdict, dispatched connections, history, hits and status are those of the trace. */
    method RunAcceptDispatch(trace: seq<Outcome>, closeAt: Option<nat>, maxErrors: int)
      returns (verdict: Verdict, dispatched: seq<nat>)
      requires Valid()
      modifies this, tracker, tracker.buf
      ensures Valid()
      ensures verdict == Outcomes(trace, closeAt, maxErrors)
      ensures dispatched == Loop(trace, closeAt, maxErrors).dispatched
      ensures tracker.history == old(tracker.history) + Named(name, Loop(trace, closeAt, maxErrors).recorded)
      ensures rateLimitHits == old(rateLimitHits) + if metered then Loop(trace, closeAt, maxErrors).rateLimits else 0
      ensures status == if verdict.Fatal? then Failed else old(status)
    {
      var i, consecutive := 0, 0;
      dispatched := [];
      ghost var s := START;
      assert trace[..0] == [];
      while true
        invariant i <= |trace| && Valid()
        invariant s == Loop(trace[..i], closeAt, maxErrors)
        invariant s.verdict == None && s.calls == i && s.consecutive == consecutive && s.dispatched == dispatched
        invariant tracker.history == old(tracker.history) + Named(name, s.recorded)
        invariant rateLimitHits == old(rateLimitHits) + if metered then s.rateLimits else 0
        invariant status == old(status)
        invariant tracker.buf == old(tracker.buf) || fresh(tracker.buf)
        decreases |trace| - i
      {
        if Closed(closeAt, 3 * i) || i == |trace| {
          RunsOut(trace, i, closeAt, maxErrors);
          return if Closed(closeAt, 3 * i) then Stopped else Blocked, dispatched;
        }
        LoopStep(trace, i, closeAt, maxErrors);
        var cont, fatal;
        ghost var before := s;
        s := Step(before, trace[i], closeAt, maxErrors);
        consecutive, dispatched, cont, fatal :=
          AcceptAndDispatch(trace[i], consecutive, dispatched, maxErrors, Closed(closeAt, 3 * i + 1), before, closeAt);
        i := i + 1;
        if !cont {
          EndedStays(trace, i, closeAt, maxErrors);
          return if fatal then Fatal(consecutive) else Stopped, dispatched;
        }
      }
    }
  }

  lemma LoopStep(trace: seq<Outcome>, i: nat, closeAt: Option<nat>, maxErrors: int)
    requires i < |trace|
    ensures Loop(trace[..i + 1], closeAt, maxErrors) ==
      Step(Loop(trace[..i], closeAt, maxErrors), trace[i], closeAt, maxErrors)
  {
    assert trace[..i + 1][..i] == trace[..i];
  }

  lemma NamedStep(name: string, errs: seq<string>, err: string)
    ensures Named(name, errs + [err]) == Named(name, errs) + [NewError(name, err)]
  {
  }

  /** Once the loop has a verdict, later outcomes are never seen. */
  lemma {:induction false} EndedStays(trace: seq<Outcome>, k: nat, closeAt: Option<nat>, maxErrors: int)
    requires k <= |trace| && Loop(trace[..k], closeAt, maxErrors).verdict.Some?
    ensures Loop(trace, closeAt, maxErrors) == Loop(trace[..k], closeAt, maxErrors)
  {
    if k == |trace| {
      assert trace[..k] == trace;
    } else {
      assert trace[..|trace| - 1][..k] == trace[..k];
      EndedStays(trace[..|trace| - 1], k, closeAt, maxErrors);
    }
  }

  /** The loop leaves at the top, or waits there for an outcome that does not come. */
  lemma RunsOut(trace: seq<Outcome>, k: nat, closeAt: Option<nat>, maxErrors: int)
    requires k <= |trace| && Loop(trace[..k], closeAt, maxErrors).verdict == None
    requires Loop(trace[..k], closeAt, maxErrors).calls == k
    requires Closed(closeAt, 3 * k) || k == |trace|
    ensures var s, t := Loop(trace[..k], closeAt, maxErrors), Loop(trace, closeAt, maxErrors);
      && t.dispatched == s.dispatched && t.recorded == s.recorded && t.rateLimits == s.rateLimits
      && Outcomes(trace, closeAt, maxErrors) == if Closed(closeAt, 3 * k) then Stopped else Blocked
  {
    if Closed(closeAt, 3 * k) {
      StoppedStays(trace, k, closeAt, maxErrors);
    } else {
      assert trace[..k] == trace;
    }
  }

  lemma StoppedStays(trace: seq<Outcome>, k: nat, closeAt: Option<nat>, maxErrors: int)
    requires k <= |trace| && Loop(trace[..k], closeAt, maxErrors).verdict == None
    requires Closed(closeAt, 3 * Loop(trace[..k], closeAt, maxErrors).calls)
    ensures Loop(trace, closeAt, maxErrors) ==
      Loop(trace[..k], closeAt, maxErrors).(verdict := Loop(trace, closeAt, maxErrors).verdict)
    ensures Outcomes(trace, closeAt, maxErrors) == Stopped
  {
    if k == |trace| {
      assert trace[..k] == trace;
    } else {
      assert trace[..k + 1][..k] == trace[..k];
      EndedStays(trace, k + 1, closeAt, maxErrors);
    }
  }

  // ---------- the trace decides: when the loop fails ----------

  /** Errors since the last success; rate limits neither count nor reset. */
  function Streak(trace: seq<Outcome>): nat {
    if trace == [] then 0
    else match trace[|trace| - 1]
      case Accepted(_) => 0
      case RateLimited => Streak(trace[..|trace| - 1])
      case AcceptError(_) => Streak(trace[..|trace| - 1]) + 1
  }

  function ErrorsIn(trace: seq<Outcome>): nat {
    if trace == [] then 0
    else ErrorsIn(trace[..|trace| - 1]) + if trace[|trace| - 1].AcceptError? then 1 else 0
  }

  /** Some stretch that ends the trace holds no success and at least `n` errors. */
  ghost predicate ErrorsWithoutSuccess(trace: seq<Outcome>, n: int) {
    exists j :: 0 <= j <= |trace| && ErrorsIn(trace[j..]) >= n && NoSuccess(trace[j..])
  }

  predicate NoSuccess(trace: seq<Outcome>) {
    forall i :: 0 <= i < |trace| ==> !trace[i].Accepted?
  }

  lemma {:induction false} StreakOf(trace: seq<Outcome>) returns (j: nat)
    ensures j <= |trace| && NoSuccess(trace[j..]) && ErrorsIn(trace[j..]) == Streak(trace)
  {
    var n := |trace| - 1;
    if trace == [] {
      j := 0;
    } else if trace[n].Accepted? {
      j := |trace|;
    } else {
      j := StreakOf(trace[..n]);
      assert trace[j..][..n - j] == trace[..n][j..];
      forall i | 0 <= i < |trace[j..]| ensures !trace[j..][i].Accepted? {
        if i < n - j {
          assert trace[j..][i] == trace[..n][j..][i];
        }
      }
    }
  }

  lemma {:induction false} StreakCounts(trace: seq<Outcome>, j: nat)
    requires j <= |trace| && NoSuccess(trace[j..])
    ensures ErrorsIn(trace[j..]) <= Streak(trace)
  {
    var n := |trace| - 1;
    if j < |trace| {
      assert trace[n] == trace[j..][n - j];
      assert trace[j..][..n - j] == trace[..n][j..];
      StreakCounts(trace[..n], j);
    }
  }

  lemma StreakIsErrorsWithoutSuccess(trace: seq<Outcome>, n: int)
    ensures Streak(trace) >= n <==> ErrorsWithoutSuccess(trace, n)
  {
    var j := StreakOf(trace);
    if ErrorsWithoutSuccess(trace, n) {
      var k :| 0 <= k <= |trace| && ErrorsIn(trace[k..]) >= n && NoSuccess(trace[k..]);
      StreakCounts(trace, k);
    }
  }

  /** Outcome `k` is an error seen with done open that brings the streak to the limit. */
  ghost predicate FailsAt(trace: seq<Outcome>, closeAt: Option<nat>, maxErrors: int, k: nat) {
    && k < |trace| && trace[k].AcceptError? && !Closed(closeAt, 3 * k + 1)
    && ErrorsWithoutSuccess(trace[..k + 1], maxErrors)
  }

  /** Which state of the loop goes with which trace. */
  lemma {:induction false} LoopFollowsTrace(trace: seq<Outcome>, closeAt: Option<nat>, maxErrors: int)
    ensures var s := Loop(trace, closeAt, maxErrors);
      && s.calls <= |trace|
      && (s.verdict == None ==> s.calls == |trace| && s.consecutive == Streak(trace))
      && (s.verdict == Some(Stopped) ==> trace != [] && Closed(closeAt, 3 * (|trace| - 1) + 1))
      && s.verdict != Some(Blocked)
  {
    if trace != [] {
      LoopFollowsTrace(trace[..|trace| - 1], closeAt, maxErrors);
    }
  }

  /**
   The loop ends fatally if and only if some error, seen with done open, completes a stretch of the
   trace without a success that holds maxErrors errors (one, when maxErrors is not positive).
   */
  lemma {:induction false} FatalExactlyWhen(trace: seq<Outcome>, closeAt: Option<nat>, maxErrors: int)
    ensures Outcomes(trace, closeAt, maxErrors).Fatal? <==> exists k: nat :: FailsAt(trace, closeAt, maxErrors, k)
  {
    if trace == [] {
    } else {
      var n := |trace| - 1;
      var before := trace[..n];
      FatalExactlyWhen(before, closeAt, maxErrors);
      LoopFollowsTrace(before, closeAt, maxErrors);
      StreakIsErrorsWithoutSuccess(trace, maxErrors);
      assert trace[..n + 1] == trace;
      forall k: nat | k < n ensures FailsAt(trace, closeAt, maxErrors, k) <==> FailsAt(before, closeAt, maxErrors, k) {
        assert before[..k + 1] == trace[..k + 1];
      }
      LastDecides(trace, closeAt, maxErrors);
      if Outcomes(before, closeAt, maxErrors).Fatal? {
        var k: nat :| FailsAt(before, closeAt, maxErrors, k);
        assert FailsAt(trace, closeAt, maxErrors, k);
      }
    }
  }

  /** The last outcome makes a loop that was still running fatal exactly when it fails there. */
  lemma LastDecides(trace: seq<Outcome>, closeAt: Option<nat>, maxErrors: int)
    requires trace != []
    ensures Outcomes(trace, closeAt, maxErrors).Fatal? <==>
      Outcomes(trace[..|trace| - 1], closeAt, maxErrors).Fatal?
      || FailsAt(trace, closeAt, maxErrors, |trace| - 1)
  {
    var n := |trace| - 1;
    LoopFollowsTrace(trace[..n], closeAt, maxErrors);
    StreakIsErrorsWithoutSuccess(trace, maxErrors);
    assert trace[..n + 1] == trace;
  }

  // ---------- conservation ----------

  /** Every Accept outcome is dispatched, counted as a rate limit, recorded, or the one that shut the loop down. */
  lemma {:induction false} OutcomesAreConserved(trace: seq<Outcome>, closeAt: Option<nat>, maxErrors: int)
    ensures var s := Loop(trace, closeAt, maxErrors);
      && s.calls == |s.dispatched| + s.rateLimits + |s.recorded| + s.shutdowns
      && s.shutdowns <= 1 && (s.shutdowns == 1 ==> s.verdict == Some(Stopped))
  {
    if trace != [] {
      OutcomesAreConserved(trace[..|trace| - 1], closeAt, maxErrors);
    }
  }

  /** With neither successes nor rate limits the loop is over within maxErrors Accept calls. */
  lemma {:induction false} OnlyErrorsEndSoon(trace: seq<Outcome>, closeAt: Option<nat>, maxErrors: int)
    requires forall i :: 0 <= i < |trace| ==> trace[i].AcceptError?
    requires maxErrors >= 1
    ensures Loop(trace, closeAt, maxErrors).calls <= maxErrors
    ensures |trace| >= maxErrors ==> Loop(trace, closeAt, maxErrors).verdict.Some?
    ensures Loop(trace, closeAt, maxErrors).verdict == None ==>
      Loop(trace, closeAt, maxErrors).consecutive == |trace| < maxErrors
  {
    if trace != [] {
      OnlyErrorsEndSoon(trace[..|trace| - 1], closeAt, maxErrors);
      LoopFollowsTrace(trace[..|trace| - 1], closeAt, maxErrors);
    }
  }

  // ---------- which connections are dispatched and which errors recorded ----------

  /** The connections that Accept returned, in order. */
  function Conns(trace: seq<Outcome>): seq<nat> {
    if trace == [] then []
    else
      var last := trace[|trace| - 1];
      Conns(trace[..|trace| - 1]) + (if last.Accepted? then [last.conn] else [])
  }

  /** One record for every error, with its number since the last success and its text. */
  function Records(trace: seq<Outcome>): seq<string> {
    if trace == [] then []
    else
      var last := trace[|trace| - 1];
      Records(trace[..|trace| - 1]) + (if last.AcceptError? then [Message(Streak(trace), last.err)] else [])
  }

  /** `s` has dispatched and recorded what the first `s.calls` outcomes of the trace say. */
  ghost predicate Handled(trace: seq<Outcome>, s: LoopState) {
    && s.shutdowns <= s.calls <= |trace|
    && s.dispatched == Conns(trace[..s.calls])
    && s.recorded == Records(trace[..s.calls - s.shutdowns])
    && (s.shutdowns > 0 ==> s.shutdowns == 1 && trace[s.calls - 1].AcceptError? && s.verdict == Some(Stopped))
  }

  lemma HandledLonger(trace: seq<Outcome>, o: Outcome, s: LoopState)
    requires Handled(trace, s)
    ensures Handled(trace + [o], s)
  {
    hide Conns, Records;
    assert (trace + [o])[..s.calls] == trace[..s.calls];
    assert (trace + [o])[..s.calls - s.shutdowns] == trace[..s.calls - s.shutdowns];
  }

  lemma ConnsAppend(trace: seq<Outcome>, o: Outcome)
    ensures Conns(trace + [o]) == if o.Accepted? then Conns(trace) + [o.conn] else Conns(trace)
    ensures Records(trace + [o]) ==
      if o.AcceptError? then Records(trace) + [Message(Streak(trace + [o]), o.err)] else Records(trace)
    ensures Streak(trace + [o]) ==
      if o.Accepted? then 0 else if o.AcceptError? then Streak(trace) + 1 else Streak(trace)
  {
    hide Message;
    assert (trace + [o])[..|trace|] == trace;
    assert Conns(trace) + [] == Conns(trace) && Records(trace) + [] == Records(trace);
  }

  /** One more outcome for a loop that is still running. */
  lemma HandledStep(trace: seq<Outcome>, o: Outcome, s: LoopState, closeAt: Option<nat>, maxErrors: int)
    requires s.verdict == None && s.calls == |trace| && s.shutdowns == 0 && s.consecutive == Streak(trace)
    requires s.dispatched == Conns(trace) && s.recorded == Records(trace)
    ensures Handled(trace + [o], Step(s, o, closeAt, maxErrors))
  {
    hide Message, Closed, Conns, Records, Streak;
    ConnsAppend(trace, o);
    var all := trace + [o];
    assert all[..|trace|] == trace && all[..|trace| + 1] == all;
  }

  /**
   The loop hands every connection that Accept returned to the handler, each once and in order, and records every
   error that it counted; the one error that it may see with done closed is the last outcome, and is left out.
   */
  lemma {:induction false} EveryOutcomeIsHandled(trace: seq<Outcome>, closeAt: Option<nat>, maxErrors: int)
    ensures Handled(trace, Loop(trace, closeAt, maxErrors))
    ensures Loop(trace, closeAt, maxErrors).verdict == None ==> Loop(trace, closeAt, maxErrors).calls == |trace|
  {
    hide Step, Conns, Records, Streak;
    LoopFollowsTrace(trace, closeAt, maxErrors);
    if trace == [] {
      NothingHandled();
    } else {
      var before, o := trace[..|trace| - 1], trace[|trace| - 1];
      assert trace == before + [o];
      EveryOutcomeIsHandled(before, closeAt, maxErrors);
      LoopFollowsTrace(before, closeAt, maxErrors);
      var s := Loop(before, closeAt, maxErrors);
      if s.verdict == None {
        assert before[..|before|] == before;
        HandledStep(before, o, s, closeAt, maxErrors);
      } else {
        EndedStep(s, o, closeAt, maxErrors);
        HandledLonger(before, o, s);
      }
    }
  }

  lemma EndedStep(s: LoopState, o: Outcome, closeAt: Option<nat>, maxErrors: int)
    requires s.verdict.Some?
    ensures Step(s, o, closeAt, maxErrors) == s
  {
  }

  lemma NothingHandled()
    ensures Handled([], START)
  {
  }

  // ---------- after done is closed ----------

  /**
   When done is closed at time `c`, every Accept call was begun before `c`, so at most one outcome is
   handled that was not complete by then; and a long enough trace does not leave the loop waiting.
   */
  lemma {:induction false} AtMostOneOutcomeAfterClose(trace: seq<Outcome>, c: nat, maxErrors: int)
    ensures var s := Loop(trace, Some(c), maxErrors);
      && 3 * s.calls < c + 3
      && s.calls <= c / 3 + 1
      && (3 * |trace| >= c ==> Outcomes(trace, Some(c), maxErrors) != Blocked)
  {
    if trace != [] {
      AtMostOneOutcomeAfterClose(trace[..|trace| - 1], c, maxErrors);
    }
    LoopFollowsTrace(trace, Some(c), maxErrors);
  }

  /** The loop then returns nil, unless an error checked before the close was already the last one allowed. */
  lemma ClosedLoopReturnsNil(trace: seq<Outcome>, c: nat, maxErrors: int)
    requires 3 * |trace| >= c
    ensures Outcomes(trace, Some(c), maxErrors) == Stopped
      <==> !exists k: nat :: FailsAt(trace, Some(c), maxErrors, k)
    ensures forall k: nat :: FailsAt(trace, Some(c), maxErrors, k) ==> 3 * k + 1 < c
  {
    AtMostOneOutcomeAfterClose(trace, c, maxErrors);
    FatalExactlyWhen(trace, Some(c), maxErrors);
  }

  /** Outcome `k` is recorded as an error, at time 3k + 2. */
  ghost predicate RecordsAt(trace: seq<Outcome>, closeAt: Option<nat>, maxErrors: int, k: nat) {
    k < |trace| && Loop(trace[..k + 1], closeAt, maxErrors).recorded != Loop(trace[..k], closeAt, maxErrors).recorded
  }

  /** As long as done is open, the loop is running after `k` outcomes exactly when none of them was fatal. */
  lemma RunningExactlyWhen(trace: seq<Outcome>, c: nat, maxErrors: int, k: nat)
    requires k <= |trace| && 3 * k < c + 2
    ensures Loop(trace[..k], Some(c), maxErrors).verdict == None
      <==> forall j: nat :: j < k ==> !FailsAt(trace, Some(c), maxErrors, j)
  {
    var before := trace[..k];
    LoopFollowsTrace(before, Some(c), maxErrors);
    FatalExactlyWhen(before, Some(c), maxErrors);
    forall j: nat | j < k ensures FailsAt(before, Some(c), maxErrors, j) <==> FailsAt(trace, Some(c), maxErrors, j) {
      assert before[..j + 1] == trace[..j + 1];
    }
  }

  /**
   An error is recorded after the close in one case only: no earlier outcome was fatal, and done closes
   between the select that saw it open and the record.
   */
  lemma RecordsAfterCloseOnlyInTheGap(trace: seq<Outcome>, c: nat, maxErrors: int, k: nat)
    requires k < |trace|
    ensures RecordsAt(trace, Some(c), maxErrors, k) && c <= 3 * k + 2
      <==> c == 3 * k + 2 && trace[k].AcceptError? && forall j: nat :: j < k ==> !FailsAt(trace, Some(c), maxErrors, j)
  {
    assert trace[..k + 1][..k] == trace[..k];
    LoopFollowsTrace(trace[..k], Some(c), maxErrors);
    var s, t := Loop(trace[..k], Some(c), maxErrors), Loop(trace[..k + 1], Some(c), maxErrors);
    assert t == Step(s, trace[k], Some(c), maxErrors);
    assert trace[k].AcceptError? && s.verdict == None && c == 3 * k + 2 ==> |t.recorded| == |s.recorded| + 1;
    if c == 3 * k + 2 {
      RunningExactlyWhen(trace, c, maxErrors, k);
    }
  }

  function Resets(n: nat): seq<Outcome> {
    seq(n, _ => AcceptError("reset"))
  }

  lemma {:induction false} ResetsSoFar(n: nat)
    requires n < 10
    ensures var s := Loop(Resets(n), Some(29), 10); s.verdict == None && s.calls == n && s.consecutive == n
  {
    if n > 0 {
      ResetsSoFar(n - 1);
      assert Resets(n)[..n - 1] == Resets(n - 1);
    }
  }

  /**
   The gap is real with the limit of ten that the tunnels use: done closes between the check of the tenth
   error and its record, and the error is still recorded and fatal.
   */
  lemma GapExample()
    ensures RecordsAt(Resets(10), Some(29), 10, 9)
    ensures Outcomes(Resets(10), Some(29), 10) == Fatal(10)
  {
    ResetsSoFar(9);
    var t := Resets(10);
    assert t[..9] == Resets(9) && t[..10] == t;
    var s := Loop(Resets(9), Some(29), 10);
    assert Loop(t, Some(29), 10) == Step(s, AcceptError("reset"), Some(29), 10);
    assert |Loop(t, Some(29), 10).recorded| == |s.recorded| + 1;
  }
}
