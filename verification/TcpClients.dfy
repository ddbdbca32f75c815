/**
 The TCPClient object (lib/tcp/client/tcp_client.go): the fields its methods update and, one method
 per atomic step, the code that updates them. Each method is proved equal to the step of the
 same name in TcpSystem; `View` is the state it acts on.
 */
module TcpClients {
  import opened Wrappers
  import opened CommonOptions
  import opened TcpOptions
  import opened TcpSystem
  import opened TcpConnection

  class TcpClient {
    // lifecycle, under lifeMu
    var generation: nat
    var closes: seq<nat>
    var stopFired: bool
    var listener: Option<nat>
    var closedListeners: set<nat>
    var status: Status
    // settings, under lifeMu
    var config: TunnelConfig
    var addr: Option<string>
    var connSem: Option<nat>
    var dialTimeout: nat
    // channels made for connSem, and the connection goroutines
    var sems: seq<Sem>
    var conns: seq<Conn>
    // TunnelMetrics
    const metered: bool
    var accepted: int
    var active: int
    var failures: int

    ghost function View(): Tunnel
      reads this
    {
      Tunnel(generation, closes, stopFired, listener, closedListeners, status, config, addr, connSem, dialTimeout,
             sems, conns, metered, accepted, active, failures)
    }

    /** The part of the invariant that the code relies on: every semaphore it names exists. */
    ghost predicate Valid()
      reads this
    {
      SemsExist(View())
    }

    constructor (config: TunnelConfig, addr: string, dialTimeout: nat, metered: bool)
      ensures Valid() && View() == Init(config, Some(addr), dialTimeout, metered)
    {
      generation, closes, stopFired := 0, [0], false;
      listener, closedListeners, status := None, {}, Stopped;
      this.config, this.addr, connSem, this.dialTimeout := config, Some(addr), None, dialTimeout;
      sems, conns := [], [];
      this.metered := metered;
      accepted, active, failures := 0, 0, 0;
    }

    /** Start up to the release of lifeMu; `listens` says whether net.Listen succeeded. */
    method StartSection(listens: bool) returns (bound: (string, int), ok: bool)
      requires Valid()
      modifies this
      ensures Valid() && View() == Next(old(View()), TcpSystem.StartSection(listens))
      ensures ok == listens && bound == (old(config.iface), old(config.port))
    {
      generation := generation + 1;
      closes := closes + [0];
      stopFired := false;
      status := Starting;
      bound := (config.iface, config.port);
      ok := listens;
      if listens {
        listener := Some(generation);
      }
    }

    method Stop()
      requires Valid()
      modifies this
      ensures Valid() && View() == Next(old(View()), StopSection)
    {
      if !stopFired {
        stopFired := true;
        closes := closes[generation := closes[generation] + 1];
        if listener.Some? {
          closedListeners := closedListeners + {listener.value};
        }
        status := Stopped;
      }
    }

    /** All or nothing: on an error no field changes, on success all of them change in one section. */
    method SetOptions(oracles: Oracles, opts: Options) returns (err: Option<TcpError>, ghost o: TcpOpts)
      requires Valid()
      modifies this
      ensures Valid()
      ensures err == FirstError(oracles, opts)
      ensures err.Some? ==> View() == old(View())
      ensures err == None ==> Records(oracles, opts, o) && View() == Next(old(View()), ApplySection(o))
    {
      var validated := ValidateTcpClientOptions(oracles, opts);
      if validated.Failure? {
        return Some(validated.error), NO_OPTS;
      }
      ApplyTCPClientOpts(validated.value);
      return None, validated.value;
    }

    method ApplyTCPClientOpts(o: TcpOpts)
      requires Valid()
      modifies this`config, this`addr, this`sems, this`connSem, this`dialTimeout
      ensures Valid() && View() == Next(old(View()), ApplySection(o))
    {
      hide Configured;
      ApplyTCPConfigFields(o);
      ApplyTCPConnOpts(o);
    }

    method ApplyTCPConfigFields(o: TcpOpts)
      modifies this`config, this`addr
      ensures config == Configured(o, old(config))
      ensures addr == if o.addr.Some? then o.addr else old(addr)
    {
      if o.name.Some? {
        config := config.(name := o.name.value);
      }
      if o.iface.Some? {
        config := config.(iface := o.iface.value);
      }
      if o.port.Some? {
        config := config.(port := o.port.value);
      }
      if o.addr.Some? {
        addr := o.addr;
      }
      var merged := Overwrite(config.i2cp, o.i2cp);
      config := config.(i2cp := merged);
    }

    method ApplyTCPConnOpts(o: TcpOpts)
      modifies this`sems, this`connSem, this`dialTimeout
      ensures dialTimeout == if o.dialTimeout.Some? then o.dialTimeout.value else old(dialTimeout)
      ensures o.maxConns == None ==> sems == old(sems) && connSem == old(connSem)
      ensures o.maxConns == Some(0) ==> sems == old(sems) && connSem == None
      ensures o.maxConns.Some? && o.maxConns.value > 0 ==>
        sems == old(sems) + [Sem(o.maxConns.value, 0)] && connSem == Some(|old(sems)|)
    {
      if o.maxConns.Some? {
        if o.maxConns.value > 0 {
          sems := sems + [Sem(o.maxConns.value, 0)];
          connSem := Some(|sems| - 1);
        } else {
          connSem := None;
        }
      }
      if o.dialTimeout.Some? {
        dialTimeout := o.dialTimeout.value;
      }
    }

    /** The locked part of LoadConfig, for a parsed file `cfg` and a resolved target. */
    method LoadConfig(cfg: TunnelConfig, target: string) returns (ok: bool)
      requires Valid()
      modifies this
      ensures Valid() && View() == Next(old(View()), LoadSection(cfg, target))
      ensures ok <==> old(status) != Running && old(status) != Starting
    {
      ok := status != Running && status != Starting;
      if ok {
        var loaded := cfg;
        if |loaded.i2cp| == 0 && |config.i2cp| > 0 {
          loaded := loaded.(i2cp := config.i2cp);
        }
        config := loaded;
        addr := Some(target);
      }
    }

    /** The accept loop starts a goroutine for an accepted connection. */
    method DispatchConn() returns (c: nat)
      requires Valid()
      modifies this
      ensures Valid() && c == |old(conns)| && View() == Next(old(View()), Dispatch)
    {
      c := |conns|;
      conns := conns + [NEW_CONN];
    }

    method SnapshotConnSem(c: nat)
      requires Valid() && At(View(), c, Dispatched)
      modifies this
      ensures Valid() && View() == Next(old(View()), Snapshot(c))
    {
      conns := conns[c := conns[c].(phase := Snapped, slot := connSem)];
    }

    /** The select of spawnConnection: `rejected` is its default branch. */
    method AcquireSlot(c: nat) returns (rejected: bool)
      requires Valid() && At(View(), c, Snapped)
      modifies this
      ensures Valid() && View() == Next(old(View()), TrySend(c))
      ensures rejected <==> conns[c].phase == Rejected
    {
      rejected := false;
      if conns[c].slot.Some? {
        var s := conns[c].slot.value;
        if sems[s].occupied < sems[s].cap {
          sems := sems[s := sems[s].(occupied := sems[s].occupied + 1)];
        } else {
          rejected := true;
        }
      }
      conns := conns[c := conns[c].(phase := if rejected then Rejected else Admitted)];
    }

    /** The deferred `<-sem`. It cannot block: in every reachable state its semaphore is not empty. */
    method ReleaseSlot(c: nat)
      requires Inv(View()) && At(View(), c, Returned)
      modifies this
      ensures Valid() && View() == Next(old(View()), Receive(c))
      ensures conns[c].phase == Finished
    {
      if conns[c].slot.Some? {
        var s := conns[c].slot.value;
        HolderOccupies(View(), c);
        sems := sems[s := sems[s].(occupied := sems[s].occupied - 1)];
      }
      conns := conns[c := conns[c].(phase := Finished)];
    }

    /** RecordConnection is two atomic adds; other goroutines may run between them. */
    method RecordAccepted(c: nat)
      requires Valid() && At(View(), c, Admitted)
      modifies this
      ensures Valid() && View() == Next(old(View()), CountAccepted(c))
    {
      if metered {
        accepted := accepted + 1;
        conns := conns[c := conns[c].(phase := Counted)];
      } else {
        conns := conns[c := conns[c].(phase := Open)];
      }
    }

    method RecordActive(c: nat)
      requires Valid() && At(View(), c, Counted)
      modifies this
      ensures Valid() && View() == Next(old(View()), CountActive(c))
    {
      active := active + 1;
      conns := conns[c := conns[c].(phase := Open, tracked := true)];
    }

    method ApplyFilter(c: nat, ok: bool)
      requires Valid() && At(View(), c, Open)
      modifies this
      ensures Valid() && View() == Next(old(View()), Filter(c, ok))
    {
      conns := conns[c := conns[c].(phase := if ok then Dialing else Closing)];
    }

    method DialI2P(c: nat, ok: bool)
      requires Valid() && At(View(), c, Dialing)
      modifies this
      ensures Valid() && View() == Next(old(View()), Dial(c, ok))
    {
      conns := conns[c := conns[c].(phase := if ok then Forwarding else DialFailed)];
    }

    method RecordConnectionFailed(c: nat)
      requires Valid() && At(View(), c, DialFailed)
      modifies this
      ensures Valid() && View() == Next(old(View()), CountFailed(c))
    {
      if metered {
        failures := failures + 1;
        conns := conns[c := conns[c].(phase := Closing, failed := true)];
      } else {
        conns := conns[c := conns[c].(phase := Closing)];
      }
    }

    method ForwardStreamEnds(c: nat)
      requires Valid() && At(View(), c, Forwarding)
      modifies this
      ensures Valid() && View() == Next(old(View()), ForwardEnds(c))
    {
      conns := conns[c := conns[c].(phase := Closing)];
    }

    /** CountingConn.Close up to the atomic add; returns whether this caller runs the once body. */
    method EnterClose(c: nat) returns (first: bool)
      requires Valid() && c < |conns| && conns[c].tracked
      modifies this
      ensures Valid() && View() == Next(old(View()), CloseBegins(c))
      ensures first <==> old(conns[c].once) == Ready
    {
      first := conns[c].once == Ready;
      if first {
        conns := conns[c := conns[c].(once := Firing)];
      }
    }

    method RecordDisconnection(c: nat)
      requires Valid() && c < |conns| && conns[c].once == Firing
      modifies this
      ensures Valid() && View() == Next(old(View()), CloseCounts(c))
    {
      active := active - 1;
      conns := conns[c := conns[c].(once := Fired)];
    }

    /** The deferred Close has returned, so a tracked connection has been counted down. */
    method HandleConnectionReturns(c: nat)
      requires Valid() && At(View(), c, Closing) && (conns[c].tracked ==> conns[c].once == Fired)
      modifies this
      ensures Valid() && View() == Next(old(View()), HandlerReturns(c))
    {
      conns := conns[c := conns[c].(phase := Returned)];
    }

    /** RecordConnection, when there are metrics, and WrapConn. */
    method CountConnection(c: nat)
      requires Inv(View()) && At(View(), c, Admitted)
      modifies this
      ensures Inv(View()) && View() == Run(old(View()), CountSteps(metered, c))
      ensures At(View(), c, Open)
    {
      hide Next, SemsInv, MetricsInv, DoneInv, ConnOk, Run;
      ghost var t := View();
      HandlerEffect(t, c, conns[c], true);
      RunOne(t, CountAccepted(c));
      RecordAccepted(c);
      if metered {
        HandlerEffect(View(), c, conns[c], true);
        RunTwo(t, CountAccepted(c), CountActive(c));
        RecordActive(c);
      }
    }

    /** The filter, the dial and the forwarding, up to where the handler returns. */
    method FilterDialForward(c: nat, filterOk: bool, dialOk: bool)
      requires Inv(View()) && At(View(), c, Open)
      modifies this
      ensures Inv(View()) && View() == Run(old(View()), WorkSteps(c, filterOk, dialOk))
      ensures At(View(), c, Closing)
    {
      hide Next, SemsInv, MetricsInv, DoneInv, ConnOk, Run;
      ghost var t := View();
      HandlerEffect(t, c, conns[c], filterOk);
      RunOne(t, Filter(c, filterOk));
      ApplyFilter(c, filterOk);
      if !filterOk {
        return;
      }
      HandlerEffect(View(), c, conns[c], dialOk);
      if dialOk {
        RunThree(t, Filter(c, true), Dial(c, true), ForwardEnds(c));
      } else {
        RunThree(t, Filter(c, true), Dial(c, false), CountFailed(c));
      }
      DialI2P(c, dialOk);
      if !dialOk {
        EndEffect(View(), c, conns[c]);
        RecordConnectionFailed(c);
        return;
      }
      HandlerEffect(View(), c, conns[c], true);
      ForwardStreamEnds(c);
    }

    /** The deferred wrapped.Close, and the return. */
    method CloseWrapped(c: nat)
      requires Inv(View()) && At(View(), c, Closing) && conns[c].once == Ready
      modifies this
      ensures Inv(View()) && View() == Run(old(View()), CloseSteps(metered, c))
      ensures At(View(), c, Returned)
    {
      ConnFlags(View(), c);
      hide Next, SemsInv, MetricsInv, DoneInv, ConnOk, Run;
      ghost var t := View();
      EndEffect(t, c, conns[c]);
      if metered {
        RunThree(t, CloseBegins(c), CloseCounts(c), HandlerReturns(c));
        var first := EnterClose(c);
        if first {
          EndEffect(View(), c, conns[c]);
          RecordDisconnection(c);
        }
      } else {
        RunOne(t, HandlerReturns(c));
      }
      EndEffect(View(), c, conns[c]);
      HandleConnectionReturns(c);
    }

    /** handleConnection, when nothing else closes its connection. */
    method HandleConnection(c: nat, filterOk: bool, dialOk: bool)
      requires Inv(View()) && At(View(), c, Admitted)
      modifies this
      ensures Inv(View()) && View() == Run(old(View()), HandleSteps(metered, c, filterOk, dialOk))
      ensures At(View(), c, Returned)
    {
      hide Next, SemsInv, MetricsInv, DoneInv, Run;
      ghost var t := View();
      ghost var a, b := CountSteps(metered, c), WorkSteps(c, filterOk, dialOk);
      CountEffect(t, c, conns[c]);
      CountConnection(c);
      WorkEffect(View(), c, conns[c], filterOk, dialOk);
      FilterDialForward(c, filterOk, dialOk);
      CloseWrapped(c);
      RunConcat(t, a, b);
      RunConcat(t, a + b, CloseSteps(metered, c));
    }

    /** spawnConnection and the goroutine it starts, when no other goroutine runs in between. */
    method SpawnConnection(c: nat, filterOk: bool, dialOk: bool)
      requires Inv(View()) && At(View(), c, Dispatched)
      modifies this
      ensures Inv(View()) && View() == Run(old(View()), SpawnSteps(old(View()), c, filterOk, dialOk))
      ensures sems == old(sems) && active == old(active)
      ensures |conns| == |old(conns)| && conns[c].slot == old(connSem)
      ensures conns[c].phase == if AtCapacity(old(View())) then Rejected else Finished
    {
      hide Next, SemsInv, MetricsInv, DoneInv, ConnOk, Run;
      ghost var t := View();
      ghost var admit, handle := [TcpSystem.Snapshot(c), TrySend(c)], HandleSteps(metered, c, filterOk, dialOk);
      RunTwo(t, TcpSystem.Snapshot(c), TrySend(c));
      AdmitEffect(t, c);
      SpawnEffect(t, c, filterOk, dialOk);
      SnapEffect(t, c);
      SnapshotConnSem(c);
      var rejected := AcquireSlot(c);
      if rejected {
        return;
      }
      HandleConnection(c, filterOk, dialOk);
      RunConcat(t, admit, handle);
      RunAppend(t, admit + handle, Receive(c));
      ReleaseSlot(c);
    }

    /** An accepted connection, from the accept loop's `go` to the end of its goroutine. */
    method ServeConnection(filterOk: bool, dialOk: bool) returns (c: nat)
      requires Inv(View())
      modifies this
      ensures Inv(View()) && c == |old(conns)| && |conns| == c + 1
      ensures SemsExist(Next(old(View()), Dispatch))
      ensures View() ==
        Run(old(View()), [Dispatch] + SpawnSteps(Next(old(View()), Dispatch), c, filterOk, dialOk))
      ensures sems == old(sems) && active == old(active) && conns[..c] == old(conns)
      ensures conns[c].phase == if AtCapacity(old(View())) then Rejected else Finished
    {
      hide SemsInv, MetricsInv, DoneInv, ConnOk, Run;
      ghost var t := View();
      RunOne(t, Dispatch);
      c := DispatchConn();
      ghost var u := View();
      RunConcat(t, [Dispatch], SpawnSteps(u, c, filterOk, dialOk));
      SpawnEffect(u, c, filterOk, dialOk);
      SpawnConnection(c, filterOk, dialOk);
    }
  }

  /** After a successful SetOptions the common fields are those of the sequential ApplyCommonOptions. */
  method SetOptionsAgreesWithSequential(t: TcpClient, oracles: Oracles, opts: Options) returns (err: Option<TcpError>)
    requires t.Valid()
    modifies t
    ensures t.Valid()
    ensures err == None ==> ApplyCommon(oracles.isIP, opts, old(t.config)) == Applied(t.config, None)
    ensures err.Some? ==> t.config == old(t.config) && t.addr == old(t.addr) && t.dialTimeout == old(t.dialTimeout)
    ensures err.Some? ==> t.connSem == old(t.connSem) && t.sems == old(t.sems)
  {
    ghost var r;
    err, r := t.SetOptions(oracles, opts);
    if err == None {
      TwoPhasesAgree(oracles, opts, r, old(t.config));
    }
  }
}
