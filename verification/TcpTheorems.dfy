/** What every run of the TCPClient step system keeps (lib/tcp/client/tcp_client.go, lib/metrics/metrics.go). */
module TcpTheorems {
  import opened Wrappers
  import opened Text
  import opened Counting
  import opened CommonOptions
  import opened TcpOptions
  import opened TcpSystem
  import opened TcpConnection

  // ---------- semaphores ----------

  /**
   After any run, every semaphore ever created, replaced or not, holds exactly one element per
   in-flight connection that acquired from it, and never more than its own capacity.
   */
  lemma EverySemaphoreIsExact(config: TunnelConfig, addr: Option<string>, dialTimeout: nat, metered: bool,
                              steps: seq<Action>, s: nat)
    requires s < |RunNew(config, addr, dialTimeout, metered, steps).sems|
    ensures var t := RunNew(config, addr, dialTimeout, metered, steps);
      t.sems[s].occupied == Count(t.conns, Holds(s)) <= t.sems[s].cap
  {
    assert SemsInv(RunNew(config, addr, dialTimeout, metered, steps));
  }

  /** A release never blocks, empties one place of the connection's own semaphore and changes no other. */
  lemma ReleaseNeverBlocks(t: Tunnel, c: nat)
    requires Inv(t) && At(t, c, Returned)
    ensures !ReceiveBlocks(t, c)
    ensures var u := Next(t, Receive(c));
      && u.conns == t.conns[c := t.conns[c].(phase := Finished)]
      && |u.sems| == |t.sems|
      && (forall s :: 0 <= s < |t.sems| ==>
            u.sems[s] == Sem(t.sems[s].cap, t.sems[s].occupied - Bit(t.conns[c].slot == Some(s))))
      && u == t.(conns := u.conns, sems := u.sems)
  {
    if t.conns[c].slot.Some? {
      HolderOccupies(t, c);
    }
  }

  /** An admission is refused exactly when the snapshotted semaphore is full; a refusal changes no semaphore. */
  lemma RefusedExactlyWhenFull(t: Tunnel, c: nat)
    requires Inv(t) && At(t, c, Snapped)
    ensures var u := Next(t, TrySend(c));
      && (u.conns[c].phase == Rejected <==>
          t.conns[c].slot.Some? && t.sems[t.conns[c].slot.value].occupied == t.sems[t.conns[c].slot.value].cap)
      && (u.conns[c].phase == Rejected ==> u.sems == t.sems)
      && (u.conns[c].phase != Rejected ==> u.conns[c].phase == Admitted)
      && (u.conns[c].phase != Rejected ==>
          forall s :: 0 <= s < |t.sems| ==> u.sems[s].occupied == t.sems[s].occupied + Bit(t.conns[c].slot == Some(s)))
  {
  }

  lemma LifecycleFrame(t: Tunnel, a: Action)
    requires SemsExist(t) && IsLifecycle(a)
    ensures LifecycleStep(t, a).conns == t.conns && LifecycleStep(t, a).sems == t.sems
  {
  }

  /** A handler step changes at most its own connection, and neither its slot nor its admission. */
  lemma HandlerFrame(t: Tunnel, a: Action, c: nat)
    requires !IsLifecycle(a) && !IsAdmission(a) && !IsClose(a) && c < |t.conns|
    ensures var u := HandlerStep(t, a);
      && |u.conns| == |t.conns| && u.conns[c].slot == t.conns[c].slot
      && (u.conns[c].phase == t.conns[c].phase || InFlight(u.conns[c].phase))
  {
  }

  lemma CloseFrame(t: Tunnel, a: Action, c: nat)
    requires IsClose(a) && c < |t.conns|
    ensures var u := CloseStep(t, a);
      |u.conns| == |t.conns| && u.conns[c].slot == t.conns[c].slot && u.conns[c].phase == t.conns[c].phase
  {
  }

  lemma ReconfiguredFrame(t: Tunnel, o: TcpOpts)
    requires SemsExist(t)
    ensures Reconfigured(t, o).conns == t.conns
  {
    hide Configured;
  }

  lemma SentFrame(t: Tunnel, c: nat)
    requires SemsExist(t) && c < |t.conns|
    ensures var u := Sent(t, c);
      u.conns == t.conns[c := t.conns[c].(phase := Admitted)] || u.conns == t.conns[c := t.conns[c].(phase := Rejected)]
  {
  }

  lemma ReceivedFrame(t: Tunnel, c: nat)
    requires SemsExist(t) && c < |t.conns|
    ensures Received(t, c).conns == t.conns[c := t.conns[c].(phase := Finished)]
      || (ReceiveBlocks(t, c) && Received(t, c) == t)
  {
  }

  lemma AdmissionFrame(t: Tunnel, a: Action, c: nat)
    requires SemsExist(t) && IsAdmission(a) && c < |t.conns| && t.conns[c].phase != Dispatched
    ensures var u := AdmissionStep(t, a);
      && |u.conns| >= |t.conns| && u.conns[c].slot == t.conns[c].slot && u.conns[c].phase != Dispatched
  {
    match a
    case ApplySection(o) => ReconfiguredFrame(t, o);
    case Dispatch =>
    case Snapshot(d) =>
    case TrySend(d) => if d < |t.conns| { SentFrame(t, d); }
    case Receive(d) => if d < |t.conns| { ReceivedFrame(t, d); }
    hide Reconfigured, Sent, Received;
  }

  lemma RefusalFrame(t: Tunnel, a: Action, c: nat)
    requires SemsExist(t) && IsAdmission(a) && c < |t.conns| && t.conns[c].phase != Rejected
    requires c < |AdmissionStep(t, a).conns| && AdmissionStep(t, a).conns[c].phase == Rejected
    ensures a == TrySend(c) && At(t, c, Snapped)
  {
  }

  /** No other step refuses a connection. */
  lemma OnlySendRefuses(t: Tunnel, a: Action, c: nat)
    requires Inv(t) && c < |t.conns| && t.conns[c].phase != Rejected
    requires c < |Next(t, a).conns| && Next(t, a).conns[c].phase == Rejected
    ensures a == TrySend(c) && At(t, c, Snapped)
  {
    if IsLifecycle(a) {
      LifecycleFrame(t, a);
    } else if IsAdmission(a) {
      RefusalFrame(t, a, c);
    } else if IsClose(a) {
      CloseFrame(t, a, c);
    } else {
      HandlerFrame(t, a, c);
    }
  }

  /** A snapshot is final: no later step, rebuild included, changes the semaphore a connection uses. */
  lemma SnapshotIsFinal(t: Tunnel, a: Action, c: nat)
    requires Inv(t) && c < |t.conns| && t.conns[c].phase != Dispatched
    ensures c < |Next(t, a).conns| && Next(t, a).conns[c].slot == t.conns[c].slot
    ensures Next(t, a).conns[c].phase != Dispatched
  {
    if IsLifecycle(a) {
      LifecycleFrame(t, a);
    } else if IsAdmission(a) {
      AdmissionFrame(t, a, c);
    } else if IsClose(a) {
      CloseFrame(t, a, c);
    } else {
      HandlerFrame(t, a, c);
    }
  }

  /** SetOptions rebuilds the semaphore without touching a slot, a connection or an older semaphore. */
  lemma RebuildKeepsOldSlots(t: Tunnel, o: TcpOpts)
    requires Inv(t)
    ensures var u := Next(t, ApplySection(o));
      && u.sems[..|t.sems|] == t.sems && u.conns == t.conns
      && (u.connSem != t.connSem ==> o.maxConns.Some?)
      && (o.maxConns.Some? ==>
          (u.connSem == None <==> o.maxConns.value == 0)
          && (u.connSem.Some? ==> u.connSem.value >= |t.sems| && u.sems[u.connSem.value] == Sem(o.maxConns.value, 0)))
  {
  }

  /** The goroutine of the connection has come to its end. */
  predicate Ended(c: Conn) {
    c.phase == Rejected || c.phase == Finished
  }

  lemma EndedLeavesEmptySemaphores(t: Tunnel)
    requires Inv(t)
    requires forall i :: 0 <= i < |t.conns| ==> Ended(t.conns[i])
    ensures forall s :: 0 <= s < |t.sems| ==> t.sems[s].occupied == 0
  {
    forall s | 0 <= s < |t.sems| ensures t.sems[s].occupied == 0 {
      CountZero(t.conns, Holds(s));
    }
  }

  // ---------- counters ----------

  /** 0 <= active <= accepted and 0 <= failed <= accepted after any run. */
  lemma CountersStayInBounds(config: TunnelConfig, addr: Option<string>, dialTimeout: nat, metered: bool,
                             steps: seq<Action>)
    ensures var t := RunNew(config, addr, dialTimeout, metered, steps);
      0 <= t.active <= t.accepted && 0 <= t.failures <= t.accepted
  {
    var t := RunNew(config, addr, dialTimeout, metered, steps);
    CountMonotone(t.conns, CountedActive(), CountedIn());
    CountMonotone(t.conns, CountedFailed(), CountedIn());
  }

  /** The gauge equals the connections counted active whose first Close has not counted down yet. */
  lemma ActiveIsExact(config: TunnelConfig, addr: Option<string>, dialTimeout: nat, metered: bool, steps: seq<Action>)
    ensures var t := RunNew(config, addr, dialTimeout, metered, steps);
      && t.active == Count(t.conns, CountedActive())
      && t.accepted == Count(t.conns, CountedIn())
      && (!metered ==> t.active == 0 && t.accepted == 0 && t.failures == 0)
  {
    var t := RunNew(config, addr, dialTimeout, metered, steps);
    MeteredIsFixed(Init(config, addr, dialTimeout, metered), steps);
    if !metered {
      CountZero(t.conns, CountedActive());
      CountZero(t.conns, CountedIn());
      CountZero(t.conns, CountedFailed());
    }
  }

  lemma {:induction false} MeteredIsFixed(t: Tunnel, steps: seq<Action>)
    requires Inv(t)
    ensures Run(t, steps).metered == t.metered
    decreases |steps|
  {
    if steps != [] {
      var u := FirstStep(t, steps);
      StepFrame(t, steps[0]);
      MeteredIsFixed(u, steps[1..]);
    }
  }

  lemma FirstStep(t: Tunnel, steps: seq<Action>) returns (u: Tunnel)
    requires Inv(t) && steps != []
    ensures u == Next(t, steps[0]) && Inv(u) && Run(t, steps) == Run(u, steps[1..])
  {
    u := Next(t, steps[0]);
    NextKeepsInv(t, steps[0]);
  }

  /** What no step changes: the metrics binding and the channels of earlier generations. */
  ghost predicate KeepsPast(t: Tunnel, u: Tunnel)
    requires SemsExist(t)
  {
    && u.metered == t.metered && u.generation >= t.generation
    && |u.closes| >= |t.closes| && u.closes[..t.generation] == t.closes[..t.generation]
  }

  lemma HandlerKeepsPast(t: Tunnel, a: Action)
    requires SemsExist(t) && !IsLifecycle(a) && !IsAdmission(a) && !IsClose(a)
    ensures KeepsPast(t, HandlerStep(t, a))
  {
    assert HandlerStep(t, a).closes == t.closes;
  }

  lemma LifecycleKeepsPast(t: Tunnel, a: Action)
    requires SemsExist(t) && IsLifecycle(a)
    ensures KeepsPast(t, LifecycleStep(t, a))
  {
  }

  lemma AdmissionKeepsPast(t: Tunnel, a: Action)
    requires SemsExist(t) && IsAdmission(a)
    ensures KeepsPast(t, AdmissionStep(t, a))
  {
    assert AdmissionStep(t, a).closes == t.closes;
  }

  lemma StepFrame(t: Tunnel, a: Action)
    requires Inv(t)
    ensures KeepsPast(t, Next(t, a))
  {
    if IsLifecycle(a) {
      LifecycleKeepsPast(t, a);
    } else if IsAdmission(a) {
      AdmissionKeepsPast(t, a);
    } else if IsClose(a) {
      assert CloseStep(t, a).closes == t.closes;
    } else {
      HandlerKeepsPast(t, a);
    }
  }

  /** No handleConnection is between its first atomic add and its return. */
  predicate HandlerIdle(c: Conn) {
    c.phase in {Dispatched, Snapped, Rejected, Admitted, Returned, Finished}
  }

  lemma IdleMeansNoneActive(t: Tunnel)
    requires Inv(t)
    requires forall i :: 0 <= i < |t.conns| ==> HandlerIdle(t.conns[i])
    ensures t.active == 0
  {
    CountZero(t.conns, CountedActive());
  }

  /** In every run, a metered connection whose handler has returned has been counted down, exactly once. */
  lemma ReturnedWasCountedDown(config: TunnelConfig, addr: Option<string>, dialTimeout: nat, steps: seq<Action>, c: nat)
    requires c < |RunNew(config, addr, dialTimeout, true, steps).conns|
    ensures var x := RunNew(config, addr, dialTimeout, true, steps).conns[c];
      x.phase == Returned || x.phase == Finished ==> x.tracked && x.once == Fired
  {
    var t := RunNew(config, addr, dialTimeout, true, steps);
    MeteredIsFixed(Init(config, addr, dialTimeout, true), steps);
    assert ConnOk(t.metered, t.conns[c]);
  }

  /** However often a connection is closed, only the first Close to enter closeOnce counts, and once. */
  lemma CloseCountsOnce(t: Tunnel, c: nat)
    requires Inv(t) && c < |t.conns|
    ensures t.conns[c].once == Fired ==> Next(t, CloseBegins(c)) == t && Next(t, CloseCounts(c)) == t
    ensures t.conns[c].tracked && t.conns[c].once == Ready ==>
      var u := Next(t, CloseBegins(c));
      u.active == t.active && SemsExist(u) && Next(u, CloseBegins(c)) == u
      && Next(u, CloseCounts(c)).active == t.active - 1
  {
    NextKeepsInv(t, CloseBegins(c));
  }

  // ---------- the done channel ----------

  /** stopOnce has fired exactly when the current done channel is closed, and no channel is closed twice. */
  lemma DoneClosedAtMostOnce(config: TunnelConfig, addr: Option<string>, dialTimeout: nat, metered: bool,
                             steps: seq<Action>, g: nat)
    requires g < |RunNew(config, addr, dialTimeout, metered, steps).closes|
    ensures var t := RunNew(config, addr, dialTimeout, metered, steps);
      t.closes[g] <= 1 && (t.stopFired <==> t.closes[t.generation] == 1)
  {
  }

  /** A Stop that fires closes exactly the current generation and the current listener; any other changes nothing. */
  lemma StopClosesTheCurrentGeneration(t: Tunnel)
    requires Inv(t)
    ensures var u := Next(t, StopSection);
      && (t.stopFired ==> u == t)
      && (!t.stopFired ==> t.closes[t.generation] == 0 && u.closes == t.closes[t.generation := 1])
      && (!t.stopFired ==> u.status == Stopped && (t.listener.Some? ==> t.listener.value in u.closedListeners))
      && u.stopFired && u.generation == t.generation && SemsExist(u) && Next(u, StopSection) == u
  {
  }

  /** How many Starts a run has, and the generation of the last one whose listen succeeded. */
  function Starts(steps: seq<Action>): nat {
    if steps == [] then 0 else Starts(steps[..|steps| - 1]) + Bit(steps[|steps| - 1].StartSection?)
  }

  function LastListening(steps: seq<Action>): Option<nat> {
    if steps == [] then None
    else
      var a := steps[|steps| - 1];
      if a.StartSection? && a.listens then Some(Starts(steps)) else LastListening(steps[..|steps| - 1])
  }

  lemma GenerationStep(t: Tunnel, a: Action)
    requires SemsExist(t)
    ensures Next(t, a).generation == t.generation + Bit(a.StartSection?)
    ensures Next(t, a).listener ==
      if a.StartSection? && a.listens then Some(Next(t, a).generation) else t.listener
  {
    hide Configured;
  }

  /**
   Every Start opens one generation and no other step does; and the listener that Stop would close is that of
   the last Start that could listen, so a failed Start leaves the earlier one in its place.
   */
  lemma {:induction false} StartsMakeGenerations(config: TunnelConfig, addr: Option<string>, dialTimeout: nat,
                                                 metered: bool, steps: seq<Action>)
    ensures var t := RunNew(config, addr, dialTimeout, metered, steps);
      t.generation == Starts(steps) && |t.closes| == Starts(steps) + 1 && t.listener == LastListening(steps)
  {
    hide Inv, Next;
    var t0 := Init(config, addr, dialTimeout, metered);
    InitInv(config, addr, dialTimeout, metered);
    if steps != [] {
      var before, a := steps[..|steps| - 1], steps[|steps| - 1];
      StartsMakeGenerations(config, addr, dialTimeout, metered, before);
      assert steps == before + [a];
      RunAppend(t0, before, a);
      InvSems(Run(t0, before));
      GenerationStep(Run(t0, before), a);
      InvSems(Run(t0, steps));
    } else {
      InvSems(t0);
    }
  }

  /**
   Once a Start has superseded a generation, no run closes that generation's channel: an accept
   loop whose Start was not stopped first keeps an open done channel for ever.
   */
  lemma {:induction false} SupersededStaysAsItWas(t: Tunnel, steps: seq<Action>, g: nat)
    requires Inv(t) && g < t.generation
    ensures g < |Run(t, steps).closes| && Run(t, steps).closes[g] == t.closes[g]
    decreases |steps|
  {
    if steps != [] {
      var u := FirstStep(t, steps);
      StepFrame(t, steps[0]);
      assert u.closes[g] == u.closes[..t.generation][g];
      SupersededStaysAsItWas(u, steps[1..], g);
    }
  }

  // ---------- settings ----------

  /**
   A load of a tunnel that neither runs nor starts takes every setting from the file, except that an empty I2CP
   map keeps the old one; at any other time it changes nothing at all.
   */
  lemma LoadTakesTheFile(t: Tunnel, cfg: TunnelConfig, target: string)
    requires SemsExist(t)
    ensures var u := Next(t, LoadSection(cfg, target));
      if t.status == Running || t.status == Starting then u == t
      else
        && u.config.name == cfg.name && u.config.kind == cfg.kind
        && u.config.iface == cfg.iface && u.config.port == cfg.port
        && u.config.i2cp == (if cfg.i2cp == map[] then t.config.i2cp else cfg.i2cp)
        && u.addr == Some(target)
        && u == t.(config := u.config, addr := u.addr)
  {
  }

  /** A successful SetOptions changes exactly the settings that its option map names. */
  lemma ApplyTakesTheOptions(t: Tunnel, o: TcpOpts)
    requires SemsExist(t)
    ensures var u := Next(t, ApplySection(o));
      && u.config.name == (if o.name.Some? then o.name.value else t.config.name)
      && u.config.iface == (if o.iface.Some? then o.iface.value else t.config.iface)
      && u.config.port == (if o.port.Some? then o.port.value else t.config.port)
      && u.config.kind == t.config.kind && u.config.i2cp == t.config.i2cp + o.i2cp
      && u.addr == (if o.addr.Some? then o.addr else t.addr)
      && u.dialTimeout == (if o.dialTimeout.Some? then o.dialTimeout.value else t.dialTimeout)
      && u == t.(config := u.config, addr := u.addr, dialTimeout := u.dialTimeout, sems := u.sems, connSem := u.connSem)
  {
    hide Next;
    ApplyWrites(t, o);
  }

  lemma ApplyWrites(t: Tunnel, o: TcpOpts)
    requires SemsExist(t)
    ensures var u := Next(t, ApplySection(o));
      && u.config == Configured(o, t.config)
      && u.addr == (if o.addr.Some? then o.addr else t.addr)
      && u.dialTimeout == (if o.dialTimeout.Some? then o.dialTimeout.value else t.dialTimeout)
      && u == t.(config := u.config, addr := u.addr, dialTimeout := u.dialTimeout, sems := u.sems, connSem := u.connSem)
  {
    hide Configured;
  }

  predicate SameSettings(t: Tunnel, u: Tunnel) {
    u.config == t.config && u.addr == t.addr && u.dialTimeout == t.dialTimeout && u.connSem == t.connSem
  }

  lemma LifecycleSettings(t: Tunnel, a: Action)
    requires SemsExist(t) && IsLifecycle(a) && !a.LoadSection?
    ensures var u := LifecycleStep(t, a);
      && SameSettings(t, u)
      && u.status == (if a.StartSection? then Starting
                      else if a.ReportRunning? then Running
                      else if a.ReportFailed? then Failed
                      else if a.StopSection? && !t.stopFired then Stopped
                      else t.status)
  {
  }

  lemma AdmissionSettings(t: Tunnel, a: Action)
    requires SemsExist(t) && IsAdmission(a) && !a.ApplySection?
    ensures var u := AdmissionStep(t, a); SameSettings(t, u) && u.status == t.status
  {
  }

  lemma HandlerSettings(t: Tunnel, a: Action)
    requires SemsExist(t) && !IsLifecycle(a) && !IsAdmission(a) && !IsClose(a)
    ensures var u := HandlerStep(t, a); SameSettings(t, u) && u.status == t.status
  {
  }

  /** No other step touches a setting, and only the lifecycle steps say where the tunnel is. */
  lemma OthersLeaveTheSettings(t: Tunnel, a: Action)
    requires SemsExist(t) && !a.ApplySection? && !a.LoadSection?
    ensures var u := Next(t, a);
      && u.config == t.config && u.addr == t.addr && u.dialTimeout == t.dialTimeout && u.connSem == t.connSem
      && u.status == (if a.StartSection? then Starting
                      else if a.ReportRunning? then Running
                      else if a.ReportFailed? then Failed
                      else if a.StopSection? && !t.stopFired then Stopped
                      else t.status)
  {
    hide LifecycleStep, AdmissionStep, HandlerStep;
    if IsLifecycle(a) {
      LifecycleSettings(t, a);
    } else if IsAdmission(a) {
      AdmissionSettings(t, a);
    } else if !IsClose(a) {
      HandlerSettings(t, a);
    }
  }

  /** "maxconns" set to a decimal zero is accepted, and removes the limit; a positive number makes a new one. */
  lemma MaxConnsSetsTheLimit(t: Tunnel, oracles: Oracles, opts: Options, r: TcpOpts, n: int)
    requires SemsExist(t) && FirstError(oracles, opts) == None && Records(oracles, opts, r)
    requires "maxconns" in opts && Atoi(opts["maxconns"]) == Some(n)
    ensures n >= 0
    ensures var u := Next(t, ApplySection(r));
      && (n == 0 ==> u.connSem == None && u.sems == t.sems)
      && (n > 0 ==> u.connSem == Some(|t.sems|) && u.sems == t.sems + [Sem(n, 0)])
  {
    hide Configured, Atoi, Extracted;
  }

  // ---------- draining ----------

  /** Steps a connection's goroutine still has to take, at most. */
  function Rank(c: Conn): nat {
    (match c.phase
     case Dispatched => 10
     case Snapped => 9
     case Admitted => 8
     case Counted => 7
     case Open => 6
     case Dialing => 5
     case DialFailed => 4
     case Forwarding => 4
     case Closing => 3
     case Returned => 2
     case Rejected => 0
     case Finished => 0) * 3
    + (match c.once case Ready => 2 case Firing => 1 case Fired => 0)
  }

  function TotalRank(conns: seq<Conn>): nat {
    if conns == [] then 0 else TotalRank(conns[..|conns| - 1]) + Rank(conns[|conns| - 1])
  }

  lemma {:induction false} RankUpdate(conns: seq<Conn>, i: nat, c: Conn)
    requires i < |conns|
    ensures TotalRank(conns[i := c]) == TotalRank(conns) - Rank(conns[i]) + Rank(c)
  {
    var last := |conns| - 1;
    if i == last {
      assert conns[i := c][..last] == conns[..last];
    } else {
      RankUpdate(conns[..last], i, c);
      assert conns[i := c][..last] == conns[..last][i := c];
    }
  }

  /** The step the goroutine of connection `c` takes next. */
  function Pending(t: Tunnel, c: nat): Action
    requires c < |t.conns| && !Ended(t.conns[c])
  {
    match t.conns[c].phase
    case Dispatched => Snapshot(c)
    case Snapped => TrySend(c)
    case Admitted => CountAccepted(c)
    case Counted => CountActive(c)
    case Open => Filter(c, true)
    case Dialing => Dial(c, true)
    case DialFailed => CountFailed(c)
    case Forwarding => ForwardEnds(c)
    case Closing =>
      if !t.conns[c].tracked || t.conns[c].once == Fired then HandlerReturns(c)
      else if t.conns[c].once == Ready then CloseBegins(c)
      else CloseCounts(c)
    case Returned => Receive(c)
    case Rejected => Dispatch
    case Finished => Dispatch
  }

  /** No goroutine is ever stuck: its next step is possible, brings it nearer its end and moves no other. */
  lemma NobodyIsStuck(t: Tunnel, c: nat)
    requires Inv(t) && c < |t.conns| && !Ended(t.conns[c])
    ensures var u := Next(t, Pending(t, c));
      |u.conns| == |t.conns| && u.conns == t.conns[c := u.conns[c]] && Rank(u.conns[c]) < Rank(t.conns[c])
  {
    var a := Pending(t, c);
    if t.conns[c].phase == Returned && t.conns[c].slot.Some? {
      HolderOccupies(t, c);
    }
    if IsAdmission(a) {
      AdmissionAdvances(t, c);
    } else if IsClose(a) {
      assert CloseStep(t, a).conns == t.conns[c := CloseStep(t, a).conns[c]];
    } else {
      HandlerAdvances(t, c);
    }
  }

  lemma InvSems(t: Tunnel)
    requires Inv(t)
    ensures SemsExist(t)
  {
  }

  lemma AdmissionAdvances(t: Tunnel, c: nat)
    requires Inv(t) && c < |t.conns| && !Ended(t.conns[c]) && IsAdmission(Pending(t, c))
    requires t.conns[c].phase == Returned ==> !ReceiveBlocks(t, c)
    ensures var u := AdmissionStep(t, Pending(t, c));
      |u.conns| == |t.conns| && u.conns == t.conns[c := u.conns[c]] && Rank(u.conns[c]) < Rank(t.conns[c])
  {
    hide Sent, Received, Reconfigured, ReceiveBlocks, Inv;
    assert SemsExist(t) by {
      InvSems(t);
    }
    SentFrame(t, c);
    ReceivedFrame(t, c);
  }

  lemma HandlerAdvances(t: Tunnel, c: nat)
    requires Inv(t) && c < |t.conns| && !Ended(t.conns[c])
    requires !IsAdmission(Pending(t, c)) && !IsClose(Pending(t, c))
    ensures var u := HandlerStep(t, Pending(t, c));
      |u.conns| == |t.conns| && u.conns == t.conns[c := u.conns[c]] && Rank(u.conns[c]) < Rank(t.conns[c])
  {
    hide SemsInv, MetricsInv, DoneInv, SemsExist;
  }

  /** From every reachable state some run ends all connections; then nothing is held and nothing is active. */
  lemma {:induction false} EveryStateCanDrain(t: Tunnel) returns (steps: seq<Action>)
    requires Inv(t)
    ensures var u := Run(t, steps);
      && |u.conns| == |t.conns|
      && (forall i :: 0 <= i < |u.conns| ==> Ended(u.conns[i]))
      && (forall s :: 0 <= s < |u.sems| ==> u.sems[s].occupied == 0)
      && u.active == 0
    decreases TotalRank(t.conns)
  {
    if forall i :: 0 <= i < |t.conns| ==> Ended(t.conns[i]) {
      steps := [];
      EndedLeavesEmptySemaphores(t);
      IdleMeansNoneActive(t);
    } else {
      var c: nat :| c < |t.conns| && !Ended(t.conns[c]);
      var a := Pending(t, c);
      var u := Next(t, a);
      NobodyIsStuck(t, c);
      NextKeepsInv(t, a);
      RankUpdate(t.conns, c, u.conns[c]);
      var rest := EveryStateCanDrain(u);
      steps := [a] + rest;
      assert steps[1..] == rest;
    }
  }
}
