/**
 RecordError called from many goroutines at once (lib/core/base.go): each call appends to the history under
 the tracker's lock and then, in a second step, adds one to the atomic error counter.
 */
module ErrorCounting {
  import opened Counting
  import opened ErrorTracking

  datatype Stage = Called | Kept | Counted

  datatype Call = Call(err: string, stage: Stage)

  /** `history` is everything ever recorded; the tracker holds its newest entries. */
  datatype Recorder = Recorder(history: seq<string>, errorCount: nat, calls: seq<Call>)

  datatype Action = Begin(err: string) | Keep(i: nat) | CountOne(i: nat)

  function Next(name: string, r: Recorder, a: Action): Recorder {
    match a
    case Begin(err) => r.(calls := r.calls + [Call(err, Called)])
    case Keep(i) =>
      if i < |r.calls| && r.calls[i].stage == Called then
        r.(history := r.history + [NewError(name, r.calls[i].err)],
           calls := r.calls[i := r.calls[i].(stage := Kept)])
      else r
    case CountOne(i) =>
      if i < |r.calls| && r.calls[i].stage == Kept then
        r.(errorCount := r.errorCount + 1, calls := r.calls[i := r.calls[i].(stage := Counted)])
      else r
  }

  function Run(name: string, r: Recorder, steps: seq<Action>): Recorder {
    if steps == [] then r else Next(name, Run(name, r, steps[..|steps| - 1]), steps[|steps| - 1])
  }

  const FRESH := Recorder([], 0, [])

  /** Between the two halves of RecordError. */
  ghost function Pending(): Call -> bool {
    (c: Call) => c.stage == Kept
  }

  lemma NextKeepsBalance(name: string, r: Recorder, a: Action)
    requires |r.history| == r.errorCount + Count(r.calls, Pending())
    ensures var s := Next(name, r, a); |s.history| == s.errorCount + Count(s.calls, Pending())
  {
    match a
    case Begin(err) => CountAppend(r.calls, Call(err, Called), Pending());
    case Keep(i) => if i < |r.calls| { CountUpdate(r.calls, i, r.calls[i].(stage := Kept), Pending()); }
    case CountOne(i) => if i < |r.calls| { CountUpdate(r.calls, i, r.calls[i].(stage := Counted), Pending()); }
  }

  /**
   In every interleaving of calls the history is ahead of the counter by the calls that are between their two
   halves; so with none in between, the tracker holds min(100, error count) entries.
   */
  lemma {:induction false} HistoryIsCounted(name: string, steps: seq<Action>)
    ensures var r := Run(name, FRESH, steps);
      var pending := Count(r.calls, Pending());
      && |r.history| == r.errorCount + pending
      && |Newest(r.history, MAX_ERRORS)| == (if r.errorCount + pending <= 100 then r.errorCount + pending else 100)
  {
    if steps != [] {
      HistoryIsCounted(name, steps[..|steps| - 1]);
      NextKeepsBalance(name, Run(name, FRESH, steps[..|steps| - 1]), steps[|steps| - 1]);
    }
  }

  /** Entry `h` is the record of a call that has appended. */
  ghost predicate FromCall(name: string, calls: seq<Call>, h: string) {
    exists i :: 0 <= i < |calls| && calls[i].stage != Called && h == NewError(name, calls[i].err)
  }

  /** And every entry is the record of the error of some call. */
  lemma {:induction false} EntriesComeFromCalls(name: string, steps: seq<Action>, n: nat)
    requires n < |Run(name, FRESH, steps).history|
    ensures FromCall(name, Run(name, FRESH, steps).calls, Run(name, FRESH, steps).history[n])
  {
    hide NewError;
    if steps != [] {
      var r, a := Run(name, FRESH, steps[..|steps| - 1]), steps[|steps| - 1];
      var s := Next(name, r, a);
      if n < |r.history| {
        EntriesComeFromCalls(name, steps[..|steps| - 1], n);
        var i :| 0 <= i < |r.calls| && r.calls[i].stage != Called && r.history[n] == NewError(name, r.calls[i].err);
        assert s.calls[i].stage != Called && s.calls[i].err == r.calls[i].err;
        assert FromCall(name, s.calls, s.history[n]);
      } else {
        assert s.calls[a.i].stage != Called && s.history[n] == NewError(name, s.calls[a.i].err);
        assert FromCall(name, s.calls, s.history[n]);
      }
    }
  }
}
