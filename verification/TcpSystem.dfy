/**
 TCPClient (lib/tcp/client/tcp_client.go) as a step system. Any number of Start, Stop, SetOptions,
 LoadConfig and connection goroutines interleave; one step is a lifeMu critical section, a
 channel operation or an atomic add. A step that its goroutine cannot take now leaves the state
 as it is, so a run is any sequence of steps.
 */
module TcpSystem {
  import opened Wrappers
  import opened Counting
  import opened CommonOptions
  import opened TcpOptions

  datatype Status = Stopped | Starting | Running | Failed

  /** A buffered channel used as a counting semaphore. */
  datatype Sem = Sem(cap: nat, occupied: nat)

  /** Where one connection is, from the accept loop's `go` to the end of its goroutine. */
  datatype Phase =
    | Dispatched   // spawnConnection has not taken its snapshot
    | Snapped      // connSem has been read into `slot`
    | Rejected     // the send fell through to default
    | Admitted     // the slot, if any, is held
    | Counted      // ConnectionsAccepted.Add is done, ActiveConnections.Add is not
    | Open         // the connection is wrapped; the filter is next
    | Dialing
    | DialFailed   // ConnectionsFailed.Add is next
    | Forwarding
    | Closing      // the deferred wrapped.Close is next
    | Returned     // handleConnection has returned; the deferred receive is next
    | Finished

  /** The sync.Once of a CountingConn. */
  datatype Once = Ready | Firing | Fired

  datatype Conn = Conn(phase: Phase, slot: Option<nat>, tracked: bool, once: Once, failed: bool)

  /** `closes[g]` counts the close() calls on the done channel of generation `g`. */
  datatype Tunnel = Tunnel(
    generation: nat, closes: seq<nat>, stopFired: bool,
    listener: Option<nat>, closedListeners: set<nat>, status: Status,
    config: TunnelConfig, addr: Option<string>, connSem: Option<nat>, dialTimeout: nat,
    sems: seq<Sem>, conns: seq<Conn>,
    metered: bool, accepted: int, active: int, failures: int)

  datatype Action =
    | StartSection(listens: bool)          // lines 114-125; a listener is named by its generation
    | ReportRunning                        // line 128, after the lock is released
    | ReportFailed                         // the accept loop gives up
    | CloseListener(generation: nat)       // the deferred listener.Close of one Start
    | StopSection
    | ApplySection(opts: TcpOpts)          // SetOptions after a successful validation
    | LoadSection(cfg: TunnelConfig, target: string)
    | Dispatch
    | Snapshot(c: nat)
    | TrySend(c: nat)
    | CountAccepted(c: nat)
    | CountActive(c: nat)
    | Filter(c: nat, ok: bool)
    | Dial(c: nat, ok: bool)
    | CountFailed(c: nat)
    | ForwardEnds(c: nat)
    | CloseBegins(c: nat)                  // any caller of Close enters closeOnce
    | CloseCounts(c: nat)
    | HandlerReturns(c: nat)
    | Receive(c: nat)

  const NEW_CONN := Conn(Dispatched, None, false, Ready, false)

  function Init(config: TunnelConfig, addr: Option<string>, dialTimeout: nat, metered: bool): Tunnel {
    Tunnel(0, [0], false, None, {}, Stopped, config, addr, None, dialTimeout, [], [], metered, 0, 0, 0)
  }

  // ---------- critical sections ----------

  function Started(t: Tunnel, listens: bool): Tunnel {
    var u := t.(generation := t.generation + 1, closes := t.closes + [0], stopFired := false, status := Starting);
    if listens then u.(listener := Some(u.generation)) else u
  }

  function StopOnce(t: Tunnel): Tunnel
    requires t.generation < |t.closes|
  {
    if t.stopFired then t
    else t.(stopFired := true,
            closes := t.closes[t.generation := t.closes[t.generation] + 1],
            closedListeners := t.closedListeners + (if t.listener.Some? then {t.listener.value} else {}),
            status := Stopped)
  }

  /** applyTCPClientOpts: a positive maxconns makes a fresh channel, zero removes the limit. */
  function Reconfigured(t: Tunnel, o: TcpOpts): Tunnel {
    var u := t.(config := Configured(o, t.config),
                addr := if o.addr.Some? then o.addr else t.addr,
                dialTimeout := if o.dialTimeout.Some? then o.dialTimeout.value else t.dialTimeout);
    if o.maxConns == None then u
    else if o.maxConns.value > 0 then
      u.(sems := t.sems + [Sem(o.maxConns.value, 0)], connSem := Some(|t.sems|))
    else u.(connSem := None)
  }

  function Loaded(t: Tunnel, cfg: TunnelConfig, target: string): Tunnel {
    if t.status == Running || t.status == Starting then t
    else t.(config := if cfg.i2cp == map[] && t.config.i2cp != map[] then cfg.(i2cp := t.config.i2cp) else cfg,
            addr := Some(target))
  }

  // ---------- connection steps ----------

  predicate At(t: Tunnel, c: nat, p: Phase) {
    c < |t.conns| && t.conns[c].phase == p
  }

  function Move(t: Tunnel, c: nat, p: Phase): Tunnel
    requires c < |t.conns|
  {
    t.(conns := t.conns[c := t.conns[c].(phase := p)])
  }

  predicate SemsExist(t: Tunnel) {
    && (t.connSem.Some? ==> t.connSem.value < |t.sems|)
    && (forall i :: 0 <= i < |t.conns| && t.conns[i].slot.Some? ==> t.conns[i].slot.value < |t.sems|)
    && |t.closes| == t.generation + 1
  }

  /** The non-blocking send of spawnConnection. */
  function Sent(t: Tunnel, c: nat): Tunnel
    requires SemsExist(t) && c < |t.conns|
  {
    match t.conns[c].slot
    case None => Move(t, c, Admitted)
    case Some(s) =>
      if t.sems[s].occupied < t.sems[s].cap
      then Move(t, c, Admitted).(sems := t.sems[s := t.sems[s].(occupied := t.sems[s].occupied + 1)])
      else Move(t, c, Rejected)
  }

  /** `<-sem` would block: the channel the connection holds is empty. */
  predicate ReceiveBlocks(t: Tunnel, c: nat)
    requires SemsExist(t) && c < |t.conns|
  {
    t.conns[c].slot.Some? && t.sems[t.conns[c].slot.value].occupied == 0
  }

  function Received(t: Tunnel, c: nat): Tunnel
    requires SemsExist(t) && c < |t.conns|
  {
    match t.conns[c].slot
    case None => Move(t, c, Finished)
    case Some(s) =>
      if t.sems[s].occupied == 0 then t
      else Move(t, c, Finished).(sems := t.sems[s := t.sems[s].(occupied := t.sems[s].occupied - 1)])
  }

  predicate IsLifecycle(a: Action) {
    a.StartSection? || a.ReportRunning? || a.ReportFailed? || a.CloseListener? || a.StopSection? || a.LoadSection?
  }

  predicate IsAdmission(a: Action) {
    a.ApplySection? || a.Dispatch? || a.Snapshot? || a.TrySend? || a.Receive?
  }

  predicate IsClose(a: Action) {
    a.CloseBegins? || a.CloseCounts?
  }

  function LifecycleStep(t: Tunnel, a: Action): Tunnel
    requires SemsExist(t) && IsLifecycle(a)
  {
    match a
    case StartSection(listens) => Started(t, listens)
    case ReportRunning => t.(status := Running)
    case ReportFailed => t.(status := Failed)
    case CloseListener(g) => t.(closedListeners := t.closedListeners + {g})
    case StopSection => StopOnce(t)
    case LoadSection(cfg, target) => Loaded(t, cfg, target)
  }

  function AdmissionStep(t: Tunnel, a: Action): Tunnel
    requires SemsExist(t) && IsAdmission(a)
  {
    match a
    case ApplySection(o) => Reconfigured(t, o)
    case Dispatch => t.(conns := t.conns + [NEW_CONN])
    case Snapshot(c) =>
      if At(t, c, Dispatched) then t.(conns := t.conns[c := t.conns[c].(phase := Snapped, slot := t.connSem)]) else t
    case TrySend(c) => if At(t, c, Snapped) then Sent(t, c) else t
    case Receive(c) => if At(t, c, Returned) then Received(t, c) else t
  }

  /** CountingConn.Close, from any goroutine: the Do of closeOnce is entered, then counts. */
  function CloseStep(t: Tunnel, a: Action): Tunnel
    requires IsClose(a)
  {
    match a
    case CloseBegins(c) =>
      if c < |t.conns| && t.conns[c].tracked && t.conns[c].once == Ready
      then t.(conns := t.conns[c := t.conns[c].(once := Firing)]) else t
    case CloseCounts(c) =>
      if c < |t.conns| && t.conns[c].once == Firing
      then t.(conns := t.conns[c := t.conns[c].(once := Fired)], active := t.active - 1) else t
  }

  /** handleConnection, one step at a time. */
  function HandlerStep(t: Tunnel, a: Action): Tunnel
    requires !IsLifecycle(a) && !IsAdmission(a) && !IsClose(a)
  {
    match a
    case CountAccepted(c) =>
      if !At(t, c, Admitted) then t
      else if t.metered then Move(t, c, Counted).(accepted := t.accepted + 1)
      else Move(t, c, Open)
    case CountActive(c) =>
      if At(t, c, Counted)
      then t.(conns := t.conns[c := t.conns[c].(phase := Open, tracked := true)], active := t.active + 1) else t
    case Filter(c, ok) => if At(t, c, Open) then Move(t, c, if ok then Dialing else Closing) else t
    case Dial(c, ok) => if At(t, c, Dialing) then Move(t, c, if ok then Forwarding else DialFailed) else t
    case CountFailed(c) =>
      if !At(t, c, DialFailed) then t
      else if t.metered
      then t.(conns := t.conns[c := t.conns[c].(phase := Closing, failed := true)], failures := t.failures + 1)
      else Move(t, c, Closing)
    case ForwardEnds(c) => if At(t, c, Forwarding) then Move(t, c, Closing) else t
    case HandlerReturns(c) =>
      if At(t, c, Closing) && (!t.conns[c].tracked || t.conns[c].once == Fired) then Move(t, c, Returned) else t
  }

  function Next(t: Tunnel, a: Action): Tunnel
    requires SemsExist(t)
  {
    if IsLifecycle(a) then LifecycleStep(t, a)
    else if IsAdmission(a) then AdmissionStep(t, a)
    else if IsClose(a) then CloseStep(t, a)
    else HandlerStep(t, a)
  }

  // ---------- the invariant ----------

  predicate InFlight(p: Phase) {
    !p.Dispatched? && !p.Snapped? && !p.Rejected? && !p.Finished?
  }

  predicate Wrapped(p: Phase) {
    InFlight(p) && !p.Admitted? && !p.Counted?
  }

  ghost function Holds(s: nat): Conn -> bool {
    (c: Conn) => InFlight(c.phase) && c.slot == Some(s)
  }

  ghost function CountedIn(): Conn -> bool {
    (c: Conn) => c.tracked || c.phase == Counted
  }

  ghost function CountedActive(): Conn -> bool {
    (c: Conn) => c.tracked && c.once != Fired
  }

  ghost function CountedFailed(): Conn -> bool {
    (c: Conn) => c.failed
  }

  /** What one connection's flags say about its phase. */
  ghost predicate ConnOk(metered: bool, c: Conn) {
    && (Wrapped(c.phase) || c.phase == Finished ==> c.tracked == metered)
    && (!Wrapped(c.phase) && c.phase != Finished ==> !c.tracked)
    && (c.phase == Counted ==> metered)
    && (!c.tracked ==> c.once == Ready && !c.failed)
    && (c.failed ==> c.phase in {Closing, Returned, Finished})
    && (c.phase in {Returned, Finished} && c.tracked ==> c.once == Fired)
  }

  /** Every semaphore ever created holds one element per in-flight connection that acquired from it. */
  ghost predicate SemsInv(t: Tunnel) {
    forall s :: 0 <= s < |t.sems| ==>
      0 < t.sems[s].cap && t.sems[s].occupied == Count(t.conns, Holds(s)) <= t.sems[s].cap
  }

  ghost predicate MetricsInv(t: Tunnel) {
    && t.accepted == Count(t.conns, CountedIn())
    && t.active == Count(t.conns, CountedActive())
    && t.failures == Count(t.conns, CountedFailed())
  }

  /** stopOnce has fired exactly when the current done channel is closed; none is closed twice. */
  ghost predicate DoneInv(t: Tunnel)
    requires SemsExist(t)
  {
    && (t.closes[t.generation] == if t.stopFired then 1 else 0)
    && (forall g :: 0 <= g < |t.closes| ==> t.closes[g] <= 1)
  }

  ghost predicate Inv(t: Tunnel) {
    && SemsExist(t)
    && (forall i :: 0 <= i < |t.conns| ==> ConnOk(t.metered, t.conns[i]))
    && SemsInv(t)
    && MetricsInv(t)
    && DoneInv(t)
  }

  lemma InitInv(config: TunnelConfig, addr: Option<string>, dialTimeout: nat, metered: bool)
    ensures Inv(Init(config, addr, dialTimeout, metered))
  {
  }

  // ---------- preservation ----------

  /** Replacing one connection that keeps its slot status changes only the counters it must. */
  lemma ReplaceConn(t: Tunnel, u: Tunnel, c: nat, x: Conn)
    requires Inv(t) && c < |t.conns|
    requires u == t.(conns := t.conns[c := x], accepted := u.accepted, active := u.active, failures := u.failures)
    requires ConnOk(t.metered, x)
    requires forall s: nat :: Holds(s)(x) == Holds(s)(t.conns[c])
    requires x.slot.Some? ==> x.slot.value < |t.sems|
    requires u.accepted == t.accepted - Bit(CountedIn()(t.conns[c])) + Bit(CountedIn()(x))
    requires u.active == t.active - Bit(CountedActive()(t.conns[c])) + Bit(CountedActive()(x))
    requires u.failures == t.failures - Bit(CountedFailed()(t.conns[c])) + Bit(CountedFailed()(x))
    ensures Inv(u)
  {
    CountUpdate(t.conns, c, x, CountedIn());
    CountUpdate(t.conns, c, x, CountedActive());
    CountUpdate(t.conns, c, x, CountedFailed());
    forall s: nat | s < |t.sems| ensures Count(u.conns, Holds(s)) == Count(t.conns, Holds(s)) {
      CountUpdate(t.conns, c, x, Holds(s));
    }
  }

  /** Replacing one connection while semaphore `s` gains or loses the slot that it takes or gives back. */
  lemma ReplaceHolder(t: Tunnel, u: Tunnel, c: nat, p: Phase, s: nat)
    requires Inv(t) && c < |t.conns| && s < |t.sems| && t.conns[c].slot == Some(s)
    requires InFlight(t.conns[c].phase) != InFlight(p)
    requires |u.sems| == |t.sems| && u.sems == t.sems[s := u.sems[s]]
    requires u == Move(t, c, p).(sems := u.sems)
    requires ConnOk(t.metered, t.conns[c].(phase := p)) && t.conns[c].phase != Counted && p != Counted
    requires u.sems[s].cap == t.sems[s].cap && u.sems[s].occupied <= u.sems[s].cap
    requires u.sems[s].occupied == t.sems[s].occupied - Bit(InFlight(t.conns[c].phase)) + Bit(InFlight(p))
    ensures Inv(u)
  {
    var x := t.conns[c].(phase := p);
    CountUpdate(t.conns, c, x, CountedIn());
    CountUpdate(t.conns, c, x, CountedActive());
    CountUpdate(t.conns, c, x, CountedFailed());
    forall r: nat | r < |t.sems| ensures u.sems[r].occupied == Count(u.conns, Holds(r)) {
      CountUpdate(t.conns, c, x, Holds(r));
    }
  }

  lemma SendKeepsInv(t: Tunnel, c: nat)
    requires Inv(t) && At(t, c, Snapped)
    ensures Inv(Sent(t, c))
  {
    match t.conns[c].slot
    case None => ReplaceConn(t, Sent(t, c), c, t.conns[c].(phase := Admitted));
    case Some(s) =>
      if t.sems[s].occupied < t.sems[s].cap {
        ReplaceHolder(t, Sent(t, c), c, Admitted, s);
      } else {
        ReplaceConn(t, Sent(t, c), c, t.conns[c].(phase := Rejected));
      }
  }

  /** A connection about to release holds a slot, so its semaphore is not empty. */
  lemma HolderOccupies(t: Tunnel, c: nat)
    requires Inv(t) && c < |t.conns| && InFlight(t.conns[c].phase) && t.conns[c].slot.Some?
    ensures t.sems[t.conns[c].slot.value].occupied > 0
  {
    CountPositive(t.conns, c, Holds(t.conns[c].slot.value));
  }

  lemma ReceiveKeepsInv(t: Tunnel, c: nat)
    requires Inv(t) && At(t, c, Returned)
    ensures Inv(Received(t, c))
  {
    match t.conns[c].slot
    case None => ReplaceConn(t, Received(t, c), c, t.conns[c].(phase := Finished));
    case Some(s) =>
      HolderOccupies(t, c);
      ReplaceHolder(t, Received(t, c), c, Finished, s);
  }

  /** A fresh semaphore is empty: no connection can hold what did not exist. */
  lemma FreshSemEmpty(t: Tunnel)
    requires Inv(t)
    ensures Count(t.conns, Holds(|t.sems|)) == 0
  {
    CountZero(t.conns, Holds(|t.sems|));
  }

  lemma ApplyKeepsInv(t: Tunnel, o: TcpOpts)
    requires Inv(t)
    ensures Inv(Reconfigured(t, o))
  {
    hide Configured;
    var u := Reconfigured(t, o);
    FreshSemEmpty(t);
    assert u.conns == t.conns && u.closes == t.closes;
    assert SemsInv(u) by {
      forall s | 0 <= s < |u.sems|
        ensures 0 < u.sems[s].cap && u.sems[s].occupied == Count(u.conns, Holds(s)) <= u.sems[s].cap
      {
        if s < |t.sems| {
          assert u.sems[s] == t.sems[s];
        }
      }
    }
  }

  lemma DispatchKeepsInv(t: Tunnel)
    requires Inv(t)
    ensures Inv(AdmissionStep(t, Dispatch))
  {
    CountAppend(t.conns, NEW_CONN, CountedIn());
    CountAppend(t.conns, NEW_CONN, CountedActive());
    CountAppend(t.conns, NEW_CONN, CountedFailed());
    forall s: nat | s < |t.sems| ensures Count(t.conns + [NEW_CONN], Holds(s)) == Count(t.conns, Holds(s)) {
      CountAppend(t.conns, NEW_CONN, Holds(s));
    }
  }

  lemma LifecycleKeepsInv(t: Tunnel, a: Action)
    requires Inv(t) && IsLifecycle(a)
    ensures Inv(LifecycleStep(t, a))
  {
    var u := LifecycleStep(t, a);
    assert u.sems == t.sems && u.conns == t.conns;
  }

  lemma AcceptedKeepsInv(t: Tunnel, c: nat)
    requires Inv(t) && At(t, c, Admitted)
    ensures Inv(HandlerStep(t, CountAccepted(c)))
  {
    var u := HandlerStep(t, CountAccepted(c));
    ReplaceConn(t, u, c, u.conns[c]);
  }

  lemma ActiveKeepsInv(t: Tunnel, c: nat)
    requires Inv(t) && At(t, c, Counted)
    ensures Inv(HandlerStep(t, CountActive(c)))
  {
    var u := HandlerStep(t, CountActive(c));
    ReplaceConn(t, u, c, u.conns[c]);
  }

  lemma FailedKeepsInv(t: Tunnel, c: nat)
    requires Inv(t) && At(t, c, DialFailed)
    ensures Inv(HandlerStep(t, CountFailed(c)))
  {
    var u := HandlerStep(t, CountFailed(c));
    ReplaceConn(t, u, c, u.conns[c]);
  }

  lemma CloseKeepsInv(t: Tunnel, a: Action)
    requires Inv(t) && IsClose(a)
    ensures Inv(CloseStep(t, a))
  {
    var u := CloseStep(t, a);
    if u != t {
      ReplaceConn(t, u, a.c, u.conns[a.c]);
    }
  }

  lemma SnapshotKeepsInv(t: Tunnel, c: nat)
    requires Inv(t) && At(t, c, Dispatched)
    ensures Inv(AdmissionStep(t, Snapshot(c)))
  {
    ReplaceConn(t, AdmissionStep(t, Snapshot(c)), c, t.conns[c].(phase := Snapped, slot := t.connSem));
  }

  /** A step of the handler that touches neither a semaphore nor a counter. */
  lemma MoveKeepsInv(t: Tunnel, c: nat, p: Phase)
    requires Inv(t) && c < |t.conns| && Wrapped(t.conns[c].phase) && Wrapped(p)
    requires !t.conns[c].failed || p.Returned?
    requires p.Returned? ==> t.conns[c].tracked ==> t.conns[c].once == Fired
    ensures Inv(Move(t, c, p))
  {
    ReplaceConn(t, Move(t, c, p), c, t.conns[c].(phase := p));
  }

  lemma AdmissionKeepsInv(t: Tunnel, a: Action)
    requires Inv(t) && IsAdmission(a)
    ensures Inv(AdmissionStep(t, a))
  {
    match a
    case ApplySection(o) => ApplyKeepsInv(t, o);
    case Dispatch => DispatchKeepsInv(t);
    case Snapshot(c) => if At(t, c, Dispatched) { SnapshotKeepsInv(t, c); }
    case TrySend(c) => if At(t, c, Snapped) { SendKeepsInv(t, c); }
    case Receive(c) => if At(t, c, Returned) { ReceiveKeepsInv(t, c); }
  }

  lemma HandlerKeepsInv(t: Tunnel, a: Action)
    requires Inv(t) && !IsLifecycle(a) && !IsAdmission(a) && !IsClose(a)
    ensures Inv(HandlerStep(t, a))
  {
    match a
    case CountAccepted(c) => if At(t, c, Admitted) { AcceptedKeepsInv(t, c); }
    case CountActive(c) => if At(t, c, Counted) { ActiveKeepsInv(t, c); }
    case Filter(c, ok) => if At(t, c, Open) { MoveKeepsInv(t, c, if ok then Dialing else Closing); }
    case Dial(c, ok) => if At(t, c, Dialing) { MoveKeepsInv(t, c, if ok then Forwarding else DialFailed); }
    case CountFailed(c) => if At(t, c, DialFailed) { FailedKeepsInv(t, c); }
    case ForwardEnds(c) => if At(t, c, Forwarding) { MoveKeepsInv(t, c, Closing); }
    case HandlerReturns(c) => if HandlerStep(t, a) != t { MoveKeepsInv(t, c, Returned); }
  }

  lemma NextKeepsInv(t: Tunnel, a: Action)
    requires Inv(t)
    ensures Inv(Next(t, a))
  {
    if IsLifecycle(a) {
      LifecycleKeepsInv(t, a);
    } else if IsAdmission(a) {
      AdmissionKeepsInv(t, a);
    } else if IsClose(a) {
      CloseKeepsInv(t, a);
    } else {
      HandlerKeepsInv(t, a);
    }
  }

  /** The state after a run of steps. */
  ghost function Run(t: Tunnel, steps: seq<Action>): (u: Tunnel)
    requires Inv(t)
    ensures Inv(u)
    decreases |steps|
  {
    if steps == [] then t
    else
      NextKeepsInv(t, steps[0]);
      Run(Next(t, steps[0]), steps[1..])
  }

  /** The state after a run of steps from a new tunnel. */
  ghost function RunNew(config: TunnelConfig, addr: Option<string>, dialTimeout: nat, metered: bool,
                        steps: seq<Action>): (u: Tunnel)
    ensures Inv(u)
  {
    InitInv(config, addr, dialTimeout, metered);
    Run(Init(config, addr, dialTimeout, metered), steps)
  }
}
