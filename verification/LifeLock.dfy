/**
 Why a critical section of TCPClient counts as one step (lib/tcp/client/tcp_client.go, lifeMu). Here
 SetOptions, LoadConfig and Start run one assignment or read at a time, and any number of calls
 interleave; lifeMu is the only thing that keeps them apart. Every run is proved equal to
 running the completed calls one after the other, and every Start binds a pair that was the
 whole configuration between two of them.
 */
module LifeLock {
  import opened Wrappers
  import opened CommonOptions
  import opened TcpOptions
  import C = TcpConnection
  import S = TcpSystem
  import T = TcpTheorems

  /** The fields under the lock, Start's local copy of the interface, and the pairs bound so far. */
  datatype Shared = Shared(config: TunnelConfig, addr: Option<string>, local: string, binds: seq<(string, int)>)

  /** One assignment, or one read of a field into a local. */
  datatype Access =
    | WriteName(name: string)
    | WriteKind(kind: string)
    | WriteInterface(iface: string)
    | WritePort(port: int)
    | WriteAddr(addr: Option<string>)
    | MergeI2CP(extra: map<string, Value>)
    | LoadI2CP(loaded: map<string, Value>)
    | ReadInterface
    | ReadPortAndListen

  function Do(s: Shared, a: Access): Shared {
    match a
    case WriteName(v) => s.(config := s.config.(name := v))
    case WriteKind(v) => s.(config := s.config.(kind := v))
    case WriteInterface(v) => s.(config := s.config.(iface := v))
    case WritePort(p) => s.(config := s.config.(port := p))
    case WriteAddr(v) => s.(addr := v)
    case MergeI2CP(m) => s.(config := s.config.(i2cp := s.config.i2cp + m))
    case LoadI2CP(m) => if m == map[] && s.config.i2cp != map[] then s else s.(config := s.config.(i2cp := m))
    case ReadInterface => s.(local := s.config.iface)
    case ReadPortAndListen => s.(binds := s.binds + [(s.local, s.config.port)])
  }

  function DoAll(s: Shared, code: seq<Access>): Shared {
    if code == [] then s else Do(DoAll(s, code[..|code| - 1]), code[|code| - 1])
  }

  /** A call that reaches its critical section. */
  datatype Call =
    | SetOptions(opts: TcpOpts)
    | LoadConfig(cfg: TunnelConfig, target: string)
    | RefusedLoad                                   // the status check under the lock fails
    | Start

  function Given<T>(v: Option<T>, access: T -> Access): seq<Access> {
    if v.Some? then [access(v.value)] else []
  }

  /** The accesses of a critical section, in program order. */
  function Code(c: Call): seq<Access> {
    match c
    case SetOptions(o) =>
      Given(o.name, v => WriteName(v)) + Given(o.iface, v => WriteInterface(v)) + Given(o.port, v => WritePort(v))
      + (if o.addr.Some? then [WriteAddr(o.addr)] else []) + [MergeI2CP(o.i2cp)]
    case LoadConfig(cfg, target) =>
      [LoadI2CP(cfg.i2cp), WriteName(cfg.name), WriteKind(cfg.kind), WriteInterface(cfg.iface), WritePort(cfg.port),
       WriteAddr(Some(target))]
    case RefusedLoad => []
    case Start => [ReadInterface, ReadPortAndListen]
  }

  datatype Stage = Waiting | Inside(pc: nat) | Done

  datatype Thread = Thread(call: Call, stage: Stage)

  /** `finished` lists the completed calls in the order in which they released the lock. */
  datatype System = System(shared: Shared, owner: Option<nat>, threads: seq<Thread>, finished: seq<Call>)

  datatype Step = Spawn(call: Call) | Lock(thread: nat) | Exec(thread: nat) | Unlock(thread: nat)

  function SetStage(y: System, i: nat, stage: Stage): System
    requires i < |y.threads|
  {
    y.(threads := y.threads[i := y.threads[i].(stage := stage)])
  }

  /** A thread executes its code without looking at the owner: only Lock does. */
  function Next(y: System, a: Step): System {
    match a
    case Spawn(call) => y.(threads := y.threads + [Thread(call, Waiting)])
    case Lock(i) =>
      if i < |y.threads| && y.threads[i].stage == Waiting && y.owner == None
      then SetStage(y, i, Inside(0)).(owner := Some(i)) else y
    case Exec(i) =>
      if i < |y.threads| && y.threads[i].stage.Inside? && y.threads[i].stage.pc < |Code(y.threads[i].call)|
      then SetStage(y, i, Inside(y.threads[i].stage.pc + 1))
        .(shared := Do(y.shared, Code(y.threads[i].call)[y.threads[i].stage.pc]))
      else y
    case Unlock(i) =>
      if i < |y.threads| && y.threads[i].stage == Inside(|Code(y.threads[i].call)|)
      then SetStage(y, i, Done).(owner := None, finished := y.finished + [y.threads[i].call]) else y
  }

  function Run(y: System, steps: seq<Step>): System
    decreases |steps|
  {
    if steps == [] then y else Run(Next(y, steps[0]), steps[1..])
  }

  function New(config: TunnelConfig, addr: Option<string>): System {
    System(Shared(config, addr, "", []), None, [], [])
  }

  // ---------- one call after the other ----------

  function Serial(s: Shared, calls: seq<Call>): Shared {
    if calls == [] then s else DoAll(Serial(s, calls[..|calls| - 1]), Code(calls[|calls| - 1]))
  }

  /** The shared state is the serial one, advanced by the part of its code the owner has executed. */
  ghost predicate Inv(s0: Shared, y: System) {
    && (forall i :: 0 <= i < |y.threads| && y.threads[i].stage.Inside? ==> y.owner == Some(i))
    && match y.owner
       case None => y.shared == Serial(s0, y.finished)
       case Some(i) =>
         && i < |y.threads| && y.threads[i].stage.Inside?
         && y.threads[i].stage.pc <= |Code(y.threads[i].call)|
         && y.shared == DoAll(Serial(s0, y.finished), Code(y.threads[i].call)[..y.threads[i].stage.pc])
  }

  lemma NextKeepsInv(s0: Shared, y: System, a: Step)
    requires Inv(s0, y)
    ensures Inv(s0, Next(y, a))
  {
    match a
    case Spawn(_) =>
    case Lock(i) =>
    case Exec(i) =>
      if Next(y, a) != y {
        var code, pc := Code(y.threads[i].call), y.threads[i].stage.pc;
        assert code[..pc + 1][..pc] == code[..pc];
      }
    case Unlock(i) =>
      if Next(y, a) != y {
        var call := y.threads[i].call;
        assert Code(call)[..|Code(call)|] == Code(call);
        assert (y.finished + [call])[..|y.finished|] == y.finished;
      }
  }

  lemma {:induction false} RunKeepsInv(s0: Shared, y: System, steps: seq<Step>)
    requires Inv(s0, y)
    ensures Inv(s0, Run(y, steps))
    decreases |steps|
  {
    if steps != [] {
      NextKeepsInv(s0, y, steps[0]);
      RunKeepsInv(s0, Next(y, steps[0]), steps[1..]);
    }
  }

  /** Whenever the lock is free, the state is that of the completed calls run one after the other. */
  lemma Serializable(config: TunnelConfig, addr: Option<string>, steps: seq<Step>)
    ensures var y := Run(New(config, addr), steps);
      y.owner == None ==> y.shared == Serial(New(config, addr).shared, y.finished)
  {
    RunKeepsInv(New(config, addr).shared, New(config, addr), steps);
  }

  // ---------- what a call does as a whole ----------

  /** The configuration a completed call leaves behind. */
  function After(c: Call, cfg: TunnelConfig): TunnelConfig {
    match c
    case SetOptions(o) => Configured(o, cfg)
    case LoadConfig(new', _) => if new'.i2cp == map[] && cfg.i2cp != map[] then new'.(i2cp := cfg.i2cp) else new'
    case RefusedLoad => cfg
    case Start => cfg
  }

  function ConfigAfter(cfg: TunnelConfig, calls: seq<Call>): TunnelConfig {
    if calls == [] then cfg else After(calls[|calls| - 1], ConfigAfter(cfg, calls[..|calls| - 1]))
  }

  lemma DoNothing(s: Shared)
    ensures DoAll(s, []) == s
  {
  }

  lemma DoOne(s: Shared, a: Access)
    ensures DoAll(s, [a]) == Do(s, a)
  {
    assert [a][..0] == [];
  }

  lemma DoLast(s: Shared, code: seq<Access>, k: nat)
    requires k < |code|
    ensures DoAll(s, code[..k + 1]) == Do(DoAll(s, code[..k]), code[k])
    ensures code[..0] == []
  {
    assert code[..k + 1][..k] == code[..k];
  }

  lemma {:induction false} DoConcat(s: Shared, a: seq<Access>, b: seq<Access>)
    ensures DoAll(s, a + b) == DoAll(DoAll(s, a), b)
  {
    if b == [] {
      assert a + b == a;
    } else {
      DoConcat(s, a, b[..|b| - 1]);
      assert (a + b)[..|a + b| - 1] == a + b[..|b| - 1];
    }
  }

  lemma DoGiven<T>(s: Shared, v: Option<T>, access: T -> Access)
    ensures DoAll(s, Given(v, access)) == if v.Some? then Do(s, access(v.value)) else s
  {
    if v.Some? {
      DoOne(s, access(v.value));
    }
  }

  lemma SetOptionsCode(s: Shared, o: TcpOpts)
    ensures DoAll(s, Code(SetOptions(o))) ==
      s.(config := Configured(o, s.config), addr := if o.addr.Some? then o.addr else s.addr)
  {
    var a, b := Given(o.name, v => WriteName(v)), Given(o.iface, v => WriteInterface(v));
    var c := Given(o.port, v => WritePort(v));
    var d := if o.addr.Some? then [WriteAddr(o.addr)] else [];
    DoConcat(s, a + b + c + d, [MergeI2CP(o.i2cp)]);
    DoConcat(s, a + b + c, d);
    DoConcat(s, a + b, c);
    DoConcat(s, a, b);
    var s1 := DoAll(s, a);
    DoGiven(s, o.name, v => WriteName(v));
    var s2 := DoAll(s1, b);
    DoGiven(s1, o.iface, v => WriteInterface(v));
    var s3 := DoAll(s2, c);
    DoGiven(s2, o.port, v => WritePort(v));
    var s4 := DoAll(s3, d);
    if o.addr.Some? {
      DoOne(s3, WriteAddr(o.addr));
    }
    DoOne(s4, MergeI2CP(o.i2cp));
  }

  lemma LoadConfigCode(s: Shared, cfg: TunnelConfig, target: string)
    ensures DoAll(s, Code(LoadConfig(cfg, target))) ==
      s.(config := After(LoadConfig(cfg, target), s.config), addr := Some(target))
  {
    hide DoAll;
    DoNothing(s);
    var code := Code(LoadConfig(cfg, target));
    DoLast(s, code, 5);
    DoLast(s, code, 4);
    DoLast(s, code, 3);
    DoLast(s, code, 2);
    DoLast(s, code, 1);
    DoLast(s, code, 0);
    assert code[..6] == code;
  }

  lemma StartCode(s: Shared)
    ensures DoAll(s, Code(Start)) ==
      s.(local := s.config.iface, binds := s.binds + [(s.config.iface, s.config.port)])
  {
    assert Code(Start) == [ReadInterface] + [ReadPortAndListen];
    DoConcat(s, [ReadInterface], [ReadPortAndListen]);
    DoOne(s, ReadInterface);
    DoOne(Do(s, ReadInterface), ReadPortAndListen);
  }

  lemma CallEffect(s: Shared, c: Call)
    ensures DoAll(s, Code(c)).config == After(c, s.config)
    ensures DoAll(s, Code(c)).binds ==
      if c == Start then s.binds + [(s.config.iface, s.config.port)] else s.binds
  {
    match c
    case SetOptions(o) => SetOptionsCode(s, o);
    case LoadConfig(cfg, target) => LoadConfigCode(s, cfg, target);
    case RefusedLoad =>
    case Start => StartCode(s);
  }

  lemma {:induction false} SerialConfig(s: Shared, calls: seq<Call>)
    ensures Serial(s, calls).config == ConfigAfter(s.config, calls)
  {
    if calls != [] {
      var before := calls[..|calls| - 1];
      SerialConfig(s, before);
      CallEffect(Serial(s, before), calls[|calls| - 1]);
    }
  }

  /** The pair is the interface and port of the configuration after the first `k` completed calls. */
  ghost predicate WholeAt(cfg: TunnelConfig, calls: seq<Call>, bound: (string, int), k: nat) {
    k <= |calls| && bound == (ConfigAfter(cfg, calls[..k]).iface, ConfigAfter(cfg, calls[..k]).port)
  }

  lemma {:induction false} SerialBinds(s: Shared, calls: seq<Call>, j: nat)
    requires s.binds == []
    requires j < |Serial(s, calls).binds|
    ensures exists k :: WholeAt(s.config, calls, Serial(s, calls).binds[j], k)
  {
    if calls != [] {
      var n := |calls| - 1;
      var before := calls[..n];
      var t := Serial(s, before);
      CallEffect(t, calls[n]);
      SerialConfig(s, before);
      if j < |t.binds| {
        SerialBinds(s, before, j);
        var k: nat :| WholeAt(s.config, before, t.binds[j], k);
        assert before[..k] == calls[..k];
        assert WholeAt(s.config, calls, Serial(s, calls).binds[j], k);
      } else {
        assert WholeAt(s.config, calls, Serial(s, calls).binds[j], n);
      }
    }
  }

  /** Only Start binds, and only with its last access. */
  lemma BindsOnlyGrowAtTheEnd(s: Shared, c: Call, pc: nat)
    requires pc <= |Code(c)|
    ensures DoAll(s, Code(c)[..pc]).binds == s.binds || (c == Start && pc == |Code(c)|)
  {
    if pc > 0 {
      BindsOnlyGrowAtTheEnd(s, c, pc - 1);
      assert Code(c)[..pc][..pc - 1] == Code(c)[..pc - 1];
    }
  }

  /**
   In every run, every pair ever bound by a Start is the whole (interface, port) of the configuration
   after some prefix of the completed calls: never the interface of one update and the port of another.
   */
  lemma EveryBindIsWhole(config: TunnelConfig, addr: Option<string>, steps: seq<Step>, j: nat)
    requires j < |Run(New(config, addr), steps).shared.binds|
    ensures var y := Run(New(config, addr), steps);
      exists k :: WholeAt(config, y.finished, y.shared.binds[j], k)
  {
    var s0 := New(config, addr).shared;
    var y := Run(New(config, addr), steps);
    RunKeepsInv(s0, New(config, addr), steps);
    var t := Serial(s0, y.finished);
    if j < |t.binds| {
      SerialBinds(s0, y.finished, j);
      var k: nat :| WholeAt(s0.config, y.finished, t.binds[j], k);
      if y.owner.Some? {
        OwnerKeepsBinds(s0, y, j);
      }
      assert WholeAt(config, y.finished, y.shared.binds[j], k);
    } else {
      var i := y.owner.value;
      var call, pc := y.threads[i].call, y.threads[i].stage.pc;
      BindsOnlyGrowAtTheEnd(t, call, pc);
      assert Code(Start)[..|Code(Start)|] == Code(Start);
      StartCode(t);
      SerialConfig(s0, y.finished);
      assert y.finished[..|y.finished|] == y.finished;
      assert WholeAt(config, y.finished, y.shared.binds[j], |y.finished|);
    }
  }

  /** While a call is in its critical section, the pairs bound before it stand. */
  lemma OwnerKeepsBinds(s0: Shared, y: System, j: nat)
    requires Inv(s0, y) && y.owner.Some? && j < |Serial(s0, y.finished).binds|
    ensures j < |y.shared.binds| && y.shared.binds[j] == Serial(s0, y.finished).binds[j]
  {
    var t := Serial(s0, y.finished);
    var call, pc := y.threads[y.owner.value].call, y.threads[y.owner.value].stage.pc;
    BindsOnlyGrowAtTheEnd(t, call, pc);
    if call == Start && pc == |Code(call)| {
      assert Code(Start)[..|Code(Start)|] == Code(Start);
      StartCode(t);
    }
  }

  /**
   The lock is what this rests on: a Start whose reads fall between the two writes of an update binds
   a pair that was never a configuration.
   */
  lemma WithoutTheLockPairsMix(s: Shared, iface: string, port: int)
    requires iface != s.config.iface && port != s.config.port
    ensures var t := DoAll(s, [WriteInterface(iface), ReadInterface, ReadPortAndListen, WritePort(port)]);
      && t.config == s.config.(iface := iface, port := port)
      && t.binds == s.binds + [(iface, s.config.port)]
      && (iface, s.config.port) != (s.config.iface, s.config.port)
      && (iface, s.config.port) != (t.config.iface, t.config.port)
  {
    var mixed := [WriteInterface(iface), ReadInterface, ReadPortAndListen, WritePort(port)];
    DoLast(s, mixed, 3);
    DoLast(s, mixed, 2);
    DoLast(s, mixed, 1);
    DoLast(s, mixed, 0);
    assert mixed[..4] == mixed;
  }

  // ---------- the sections are those of the step system ----------

  /** What the lock protects of a tunnel, with a Start's local and the pairs bound so far. */
  function Protected(t: S.Tunnel, local: string, binds: seq<(string, int)>): Shared {
    Shared(t.config, t.addr, local, binds)
  }

  /** The call whose critical section a step of the system is; None for the steps that hold no setting. */
  function CallOf(t: S.Tunnel, a: S.Action): Option<Call> {
    match a
    case ApplySection(o) => Some(SetOptions(o))
    case LoadSection(cfg, target) =>
      Some(if t.status == S.Running || t.status == S.Starting then RefusedLoad else LoadConfig(cfg, target))
    case StartSection(_) => Some(Start)
    case _ => None
  }

  /** Each critical section of the step system is the code of its call, run field by field. */
  lemma SectionsAreCode(t: S.Tunnel, a: S.Action, local: string, binds: seq<(string, int)>)
    requires S.SemsExist(t)
    ensures var u := S.Next(t, a);
      var c := CallOf(t, a);
      var s := Protected(t, local, binds);
      && u.config == (if c.None? then t.config else DoAll(s, Code(c.value)).config)
      && u.addr == (if c.None? then t.addr else DoAll(s, Code(c.value)).addr)
  {
    hide DoAll, Code;
    var s := Protected(t, local, binds);
    DoNothing(s);
    match a
    case ApplySection(o) =>
      T.ApplyTakesTheOptions(t, o);
      SetOptionsCode(s, o);
    case LoadSection(cfg, target) =>
      T.LoadTakesTheFile(t, cfg, target);
      LoadConfigCode(s, cfg, target);
      NoCode(s);
    case StartSection(_) =>
      T.OthersLeaveTheSettings(t, a);
      StartCode(s);
    case _ =>
      T.OthersLeaveTheSettings(t, a);
  }

  lemma NoCode(s: Shared)
    ensures DoAll(s, Code(RefusedLoad)) == s
  {
  }

  /** The calls that a run of the step system completes, in order. */
  ghost function CallsOf(t: S.Tunnel, steps: seq<S.Action>): seq<Call>
    requires S.Inv(t)
  {
    if steps == [] then []
    else
      var before := steps[..|steps| - 1];
      var c := CallOf(S.Run(t, before), steps[|steps| - 1]);
      CallsOf(t, before) + (if c.None? then [] else [c.value])
  }

  /**
   In every run of the step system the configuration is that of the calls completed so far, one after the other;
   so the pair that a Start of the system binds is the whole configuration after some prefix of them.
   */
  lemma {:induction false} RunIsSerial(t: S.Tunnel, steps: seq<S.Action>)
    requires S.Inv(t)
    ensures S.Run(t, steps).config == ConfigAfter(t.config, CallsOf(t, steps))
  {
    hide S.Inv, S.Next, DoAll, Code, After;
    if steps != [] {
      var before, a := steps[..|steps| - 1], steps[|steps| - 1];
      RunIsSerial(t, before);
      assert steps == before + [a];
      C.RunAppend(t, before, a);
      var u := S.Run(t, before);
      T.InvSems(u);
      SectionsAreCode(u, a, "", []);
      var c := CallOf(u, a);
      if c.Some? {
        CallEffect(Protected(u, "", []), c.value);
        assert CallsOf(t, steps)[..|CallsOf(t, before)|] == CallsOf(t, before);
      } else {
        assert CallsOf(t, before) + [] == CallsOf(t, before);
      }
    }
  }
}
