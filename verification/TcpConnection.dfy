/**
 One connection of TCPClient from its dispatch to its end, when nothing interrupts it
 (lib/tcp/client/tcp_client.go, spawnConnection and handleConnection): its steps on every exit, in program
 order, and what they leave behind.
 */
module TcpConnection {
  import opened Wrappers
  import opened Counting
  import opened TcpSystem

  // ---------- the steps ----------

  function CountSteps(metered: bool, c: nat): seq<Action> {
    if metered then [CountAccepted(c), CountActive(c)] else [CountAccepted(c)]
  }

  /** The filter refuses, the dial fails, or the stream is forwarded to its end. */
  function WorkSteps(c: nat, filterOk: bool, dialOk: bool): seq<Action> {
    if !filterOk then [Filter(c, false)]
    else if !dialOk then [Filter(c, true), Dial(c, false), CountFailed(c)]
    else [Filter(c, true), Dial(c, true), ForwardEnds(c)]
  }

  /** The deferred Close, and the return. */
  function CloseSteps(metered: bool, c: nat): seq<Action> {
    if metered then [CloseBegins(c), CloseCounts(c), HandlerReturns(c)] else [HandlerReturns(c)]
  }

  function HandleSteps(metered: bool, c: nat, filterOk: bool, dialOk: bool): seq<Action> {
    CountSteps(metered, c) + WorkSteps(c, filterOk, dialOk) + CloseSteps(metered, c)
  }

  /** The semaphore in force is full. */
  predicate AtCapacity(t: Tunnel)
    requires SemsExist(t)
  {
    t.connSem.Some? && t.sems[t.connSem.value].occupied >= t.sems[t.connSem.value].cap
  }

  /** spawnConnection and its goroutine, with the deferred receive. */
  function SpawnSteps(t: Tunnel, c: nat, filterOk: bool, dialOk: bool): seq<Action>
    requires SemsExist(t)
  {
    if AtCapacity(t) then [Snapshot(c), TrySend(c)]
    else [Snapshot(c), TrySend(c)] + HandleSteps(t.metered, c, filterOk, dialOk) + [Receive(c)]
  }

  // ---------- runs ----------

  lemma {:induction false} RunConcat(t: Tunnel, a: seq<Action>, b: seq<Action>)
    requires Inv(t)
    ensures Run(t, a + b) == Run(Run(t, a), b)
    decreases |a|
  {
    hide Next, SemsInv, MetricsInv, DoneInv, ConnOk;
    if a == [] {
      assert a + b == b;
    } else {
      NextKeepsInv(t, a[0]);
      assert (a + b)[1..] == a[1..] + b;
      RunConcat(Next(t, a[0]), a[1..], b);
    }
  }

  lemma RunOne(t: Tunnel, a: Action)
    requires Inv(t)
    ensures Inv(Next(t, a)) && Run(t, [a]) == Next(t, a)
  {
    hide Next, SemsInv, MetricsInv, DoneInv, ConnOk;
    NextKeepsInv(t, a);
    assert [a][1..] == [];
    assert Run(Next(t, a), []) == Next(t, a);
  }

  lemma RunAppend(t: Tunnel, steps: seq<Action>, a: Action)
    requires Inv(t)
    ensures Run(t, steps + [a]) == Next(Run(t, steps), a)
  {
    hide Next, SemsInv, MetricsInv, DoneInv, ConnOk;
    RunConcat(t, steps, [a]);
    RunOne(Run(t, steps), a);
  }

  lemma RunTwo(t: Tunnel, a: Action, b: Action)
    requires Inv(t)
    ensures Inv(Next(t, a)) && Run(t, [a, b]) == Next(Next(t, a), b)
  {
    hide Next, SemsInv, MetricsInv, DoneInv, ConnOk;
    RunOne(t, a);
    assert [a] + [b] == [a, b];
    RunAppend(t, [a], b);
  }

  lemma RunThree(t: Tunnel, a: Action, b: Action, c: Action)
    requires Inv(t)
    ensures Inv(Next(t, a)) && Inv(Next(Next(t, a), b)) && Run(t, [a, b, c]) == Next(Next(Next(t, a), b), c)
  {
    hide Next, SemsInv, MetricsInv, DoneInv, ConnOk;
    RunTwo(t, a, b);
    assert [a, b] + [c] == [a, b, c];
    RunAppend(t, [a, b], c);
  }

  // ---------- what the parts leave behind ----------

  /** The tunnel with another state of connection `c` and other counters. */
  function With(t: Tunnel, c: nat, x: Conn, accepted: int, active: int, failures: int): Tunnel
    requires c < |t.conns|
  {
    t.(conns := t.conns[c := x], accepted := t.accepted + accepted, active := t.active + active,
       failures := t.failures + failures)
  }

  lemma WithTwice(t: Tunnel, c: nat, x: Conn, y: Conn, a: int, b: int, d: int, a': int, b': int, d': int)
    requires c < |t.conns|
    ensures With(With(t, c, x, a, b, d), c, y, a', b', d') == With(t, c, y, a + a', b + b', d + d')
    ensures With(t, c, x, a, b, d).conns[c] == x && |With(t, c, x, a, b, d).conns| == |t.conns|
  {
  }

  /** One step of the handler of connection `c`, which is in state `x`. */
  lemma HandlerEffect(t: Tunnel, c: nat, x: Conn, ok: bool)
    requires SemsExist(t) && c < |t.conns| && t.conns[c] == x
    ensures x.phase == Admitted && !t.metered ==> Next(t, CountAccepted(c)) == With(t, c, x.(phase := Open), 0, 0, 0)
    ensures x.phase == Admitted && t.metered ==> Next(t, CountAccepted(c)) == With(t, c, x.(phase := Counted), 1, 0, 0)
    ensures x.phase == Counted ==> Next(t, CountActive(c)) == With(t, c, x.(phase := Open, tracked := true), 0, 1, 0)
    ensures x.phase == Open ==>
      Next(t, Filter(c, ok)) == With(t, c, x.(phase := if ok then Dialing else Closing), 0, 0, 0)
    ensures x.phase == Dialing ==>
      Next(t, Dial(c, ok)) == With(t, c, x.(phase := if ok then Forwarding else DialFailed), 0, 0, 0)
    ensures x.phase == Forwarding ==> Next(t, ForwardEnds(c)) == With(t, c, x.(phase := Closing), 0, 0, 0)
  {
  }

  lemma EndEffect(t: Tunnel, c: nat, x: Conn)
    requires SemsExist(t) && c < |t.conns| && t.conns[c] == x
    ensures x.phase == DialFailed && !t.metered ==> Next(t, CountFailed(c)) == With(t, c, x.(phase := Closing), 0, 0, 0)
    ensures x.phase == DialFailed && t.metered ==>
      Next(t, CountFailed(c)) == With(t, c, x.(phase := Closing, failed := true), 0, 0, 1)
    ensures x.tracked && x.once == Ready ==> Next(t, CloseBegins(c)) == With(t, c, x.(once := Firing), 0, 0, 0)
    ensures x.once == Firing ==> Next(t, CloseCounts(c)) == With(t, c, x.(once := Fired), 0, -1, 0)
    ensures x.phase == Closing && (!x.tracked || x.once == Fired) ==>
      Next(t, HandlerReturns(c)) == With(t, c, x.(phase := Returned), 0, 0, 0)
  {
  }

  /** What the invariant says of a connection that is about to be closed. */
  lemma ConnFlags(t: Tunnel, c: nat)
    requires Inv(t) && At(t, c, Closing)
    ensures t.conns[c].tracked == t.metered
  {
  }

  lemma SnapEffect(t: Tunnel, c: nat)
    requires SemsExist(t) && At(t, c, Dispatched)
    ensures Next(t, Snapshot(c)) == t.(conns := t.conns[c := t.conns[c].(phase := Snapped, slot := t.connSem)])
    ensures At(Next(t, Snapshot(c)), c, Snapped)
  {
  }

  lemma SendEffect(t: Tunnel, c: nat, x: Conn)
    requires SemsExist(t) && At(t, c, Snapped) && t.conns[c] == x && x.slot == t.connSem
    ensures Next(t, TrySend(c)) ==
      if AtCapacity(t) then t.(conns := t.conns[c := x.(phase := Rejected)])
      else t.(conns := t.conns[c := x.(phase := Admitted)], sems := Taken(t))
  {
  }

  lemma CountEffect(t: Tunnel, c: nat, x: Conn)
    requires Inv(t) && At(t, c, Admitted) && t.conns[c] == x && !x.tracked
    ensures Run(t, CountSteps(t.metered, c)) ==
      With(t, c, x.(phase := Open, tracked := t.metered), Bit(t.metered), Bit(t.metered), 0)
  {
    hide Run, Next, SemsInv, MetricsInv, DoneInv, ConnOk, With;
    HandlerEffect(t, c, x, true);
    if t.metered {
      var y, z := x.(phase := Counted), x.(phase := Open, tracked := true);
      RunTwo(t, CountAccepted(c), CountActive(c));
      WithTwice(t, c, y, z, 1, 0, 0, 0, 1, 0);
      HandlerEffect(Next(t, CountAccepted(c)), c, y, true);
    } else {
      RunOne(t, CountAccepted(c));
    }
  }

  lemma WorkEffect(t: Tunnel, c: nat, x: Conn, filterOk: bool, dialOk: bool)
    requires Inv(t) && At(t, c, Open) && t.conns[c] == x && !x.failed
    ensures var failed := t.metered && filterOk && !dialOk;
      Run(t, WorkSteps(c, filterOk, dialOk)) == With(t, c, x.(phase := Closing, failed := failed), 0, 0, Bit(failed))
  {
    hide Run, Next, SemsInv, MetricsInv, DoneInv, ConnOk;
    HandlerEffect(t, c, x, filterOk);
    if !filterOk {
      RunOne(t, Filter(c, false));
    } else {
      var u := Next(t, Filter(c, true));
      HandlerEffect(u, c, x.(phase := Dialing), dialOk);
      if dialOk {
        RunThree(t, Filter(c, true), Dial(c, true), ForwardEnds(c));
        HandlerEffect(Next(u, Dial(c, true)), c, x.(phase := Forwarding), true);
      } else {
        RunThree(t, Filter(c, true), Dial(c, false), CountFailed(c));
        EndEffect(Next(u, Dial(c, false)), c, x.(phase := DialFailed));
      }
    }
  }

  lemma CloseEffect(t: Tunnel, c: nat, x: Conn)
    requires Inv(t) && At(t, c, Closing) && t.conns[c] == x && x.once == Ready && x.tracked == t.metered
    ensures Run(t, CloseSteps(t.metered, c)) ==
      With(t, c, x.(phase := Returned, once := if t.metered then Fired else Ready), 0, if t.metered then -1 else 0, 0)
  {
    hide Run, Next, SemsInv, MetricsInv, DoneInv, ConnOk;
    EndEffect(t, c, x);
    if t.metered {
      RunThree(t, CloseBegins(c), CloseCounts(c), HandlerReturns(c));
      var u := Next(t, CloseBegins(c));
      EndEffect(u, c, x.(once := Firing));
      EndEffect(Next(u, CloseCounts(c)), c, x.(once := Fired));
    } else {
      RunOne(t, HandlerReturns(c));
    }
  }

  /** The connection at the end of its handler. */
  function Handled(t: Tunnel, x: Conn, filterOk: bool, dialOk: bool): Conn {
    x.(phase := Returned, tracked := t.metered, once := if t.metered then Fired else Ready,
       failed := t.metered && filterOk && !dialOk)
  }

  /**
   handleConnection as a whole, on all its exits: it counts one accepted connection, one failed exactly when
   the dial failed, and leaves the gauge and every semaphore as they were.
   */
  lemma HandleEffect(t: Tunnel, c: nat, filterOk: bool, dialOk: bool)
    requires Inv(t) && At(t, c, Admitted)
    ensures Run(t, HandleSteps(t.metered, c, filterOk, dialOk)) ==
      With(t, c, Handled(t, t.conns[c], filterOk, dialOk), Bit(t.metered), 0, Bit(t.metered && filterOk && !dialOk))
  {
    hide Run, Next, SemsInv, MetricsInv, DoneInv, With;
    var x := t.conns[c];
    assert x.once == Ready && !x.failed && !x.tracked;
    var a, b := CountSteps(t.metered, c), WorkSteps(c, filterOk, dialOk);
    RunConcat(t, a + b, CloseSteps(t.metered, c));
    RunConcat(t, a, b);
    CountEffect(t, c, x);
    var failed := t.metered && filterOk && !dialOk;
    var y := x.(phase := Open, tracked := t.metered);
    var z := y.(phase := Closing, failed := failed);
    var n := Bit(t.metered);
    WithTwice(t, c, y, z, n, n, 0, 0, 0, Bit(failed));
    WithFixed(t, c, y, n, n, 0);
    WorkEffect(Run(t, a), c, y, filterOk, dialOk);
    WithTwice(t, c, z, Handled(t, x, filterOk, dialOk), n, n, Bit(failed), 0, if t.metered then -1 else 0, 0);
    WithFixed(t, c, z, n, n, Bit(failed));
    CloseEffect(Run(t, a + b), c, z);
  }

  lemma WithFixed(t: Tunnel, c: nat, x: Conn, a: int, b: int, d: int)
    requires c < |t.conns|
    ensures With(t, c, x, a, b, d).metered == t.metered
  {
  }

  /**
   A connection that nothing interrupts ends rejected exactly when the semaphore in force is full, and
   otherwise finished, its slot given back; either way every semaphore and the gauge are as before, and
   the counters have moved by what its exit says.
   */
  lemma SpawnEffect(t: Tunnel, c: nat, filterOk: bool, dialOk: bool)
    requires Inv(t) && At(t, c, Dispatched)
    ensures var u := Run(t, SpawnSteps(t, c, filterOk, dialOk));
      && u.sems == t.sems && u.active == t.active
      && |u.conns| == |t.conns|
      && u == t.(conns := t.conns[c := u.conns[c]], accepted := u.accepted, failures := u.failures)
      && u.conns[c].slot == t.connSem
      && u.conns[c].phase == (if AtCapacity(t) then Rejected else Finished)
      && u.accepted == t.accepted + Bit(t.metered && !AtCapacity(t))
      && u.failures == t.failures + Bit(t.metered && !AtCapacity(t) && filterOk && !dialOk)
  {
    hide Run, Next, SemsInv, MetricsInv, DoneInv, ConnOk;
    if AtCapacity(t) {
      AdmitEffect(t, c);
    } else {
      SpawnAdmitted(t, c, filterOk, dialOk);
    }
  }

  lemma SpawnAdmitted(t: Tunnel, c: nat, filterOk: bool, dialOk: bool)
    requires Inv(t) && At(t, c, Dispatched) && !AtCapacity(t)
    ensures Run(t, SpawnSteps(t, c, filterOk, dialOk)) ==
      With(t, c, Handled(t, t.conns[c].(slot := t.connSem), filterOk, dialOk).(phase := Finished),
        Bit(t.metered), 0, Bit(t.metered && filterOk && !dialOk))
  {
    hide Run, Next, SemsInv, MetricsInv, DoneInv, ConnOk, Taken, HandleSteps;
    var admit, handle := [Snapshot(c), TrySend(c)], HandleSteps(t.metered, c, filterOk, dialOk);
    AdmitEffect(t, c);
    RunAppend(t, admit + handle, Receive(c));
    RunConcat(t, admit, handle);
    HandleEffect(Run(t, admit), c, filterOk, dialOk);
    ReceiveEffect(t, Run(t, admit + handle), c);
  }

  /** The place that an admission takes. */
  function Taken(t: Tunnel): seq<Sem>
    requires SemsExist(t)
  {
    if t.connSem.None? then t.sems
    else t.sems[t.connSem.value := t.sems[t.connSem.value].(occupied := t.sems[t.connSem.value].occupied + 1)]
  }

  lemma AdmitEffect(t: Tunnel, c: nat)
    requires Inv(t) && At(t, c, Dispatched)
    ensures var x := t.conns[c].(slot := t.connSem);
      Run(t, [Snapshot(c), TrySend(c)]) ==
        if AtCapacity(t) then t.(conns := t.conns[c := x.(phase := Rejected)])
        else t.(conns := t.conns[c := x.(phase := Admitted)], sems := Taken(t))
  {
    hide Run, Next, SemsInv, MetricsInv, DoneInv, ConnOk;
    RunTwo(t, Snapshot(c), TrySend(c));
    SnapEffect(t, c);
    var u := Next(t, Snapshot(c));
    SendEffect(u, c, u.conns[c]);
  }

  lemma ReceiveEffect(t: Tunnel, u: Tunnel, c: nat)
    requires SemsExist(t) && SemsExist(u) && At(u, c, Returned)
    requires u.conns[c].slot == t.connSem && u.sems == Taken(t)
    ensures Next(u, Receive(c)) == u.(conns := u.conns[c := u.conns[c].(phase := Finished)], sems := t.sems)
  {
    assert t.connSem.Some? ==> u.sems[t.connSem.value := t.sems[t.connSem.value]] == t.sems;
  }
}
