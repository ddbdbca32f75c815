/**
 Phase one of TCPClient.SetOptions (lib/tcp/client/tcp_client.go): every value is validated into an
 options record before anything is applied. Address lookup, net.ParseIP and time.ParseDuration
 are oracles.
 */
module TcpOptions {
  import opened Wrappers
  import opened Text
  import opened CommonOptions

  datatype Oracles = Oracles(
    isIP: string -> bool,
    isI2P: string -> bool,
    lookup: string -> Option<string>,
    duration: string -> Option<int>)

  datatype TcpError =
    | Common(error: OptionError)
    | EmptyTarget | BadTarget | LookupFailed
    | BadMaxConns | NegativeMaxConns | BadTimeout

  /** tcpClientOpts: a field that is None was not in the option map. */
  datatype TcpOpts = TcpOpts(
    name: Option<string>, iface: Option<string>, port: Option<int>, addr: Option<string>,
    i2cp: map<string, Value>, maxConns: Option<nat>, dialTimeout: Option<nat>)

  const NO_OPTS := TcpOpts(None, None, None, None, map[], None, None)

  ghost function Given(opts: Options, k: string): Option<string> {
    if k in opts then Some(opts[k]) else None
  }

  /** The target's error, or None when it is absent or resolves. */
  ghost function TargetError(o: Oracles, opts: Options): Option<TcpError> {
    if "target" !in opts then None
    else if opts["target"] == "" then Some(EmptyTarget)
    else if !o.isI2P(opts["target"]) then Some(BadTarget)
    else if o.lookup(opts["target"]) == None then Some(LookupFailed)
    else None
  }

  ghost function MaxConnsError(opts: Options): Option<TcpError> {
    if "maxconns" !in opts then None
    else match Atoi(opts["maxconns"])
      case None => Some(BadMaxConns)
      case Some(n) => if n < 0 then Some(NegativeMaxConns) else None
  }

  ghost function TimeoutError(o: Oracles, opts: Options): Option<TcpError> {
    if "dialtimeout" !in opts then None
    else match o.duration(opts["dialtimeout"])
      case None => Some(BadTimeout)
      case Some(d) => if d < 0 then Some(BadTimeout) else None
  }

  ghost function CommonError(o: Oracles, opts: Options): Option<TcpError> {
    if !NameOk(opts) then Some(Common(BlankName))
    else if !InterfaceOk(o.isIP, opts) then Some(Common(BadInterface))
    else if !PortOk(opts) then Some(Common(BadPort))
    else None
  }

  /** The first error in the order name, interface, port, target, maxconns, dialtimeout. */
  ghost function FirstError(o: Oracles, opts: Options): Option<TcpError> {
    if CommonError(o, opts).Some? then CommonError(o, opts)
    else if TargetError(o, opts).Some? then TargetError(o, opts)
    else if MaxConnsError(opts).Some? then MaxConnsError(opts)
    else TimeoutError(o, opts)
  }

  /** `r` is the record of exactly the values present in `opts`. */
  ghost predicate Records(o: Oracles, opts: Options, r: TcpOpts)
    requires FirstError(o, opts) == None
  {
    && r.name == Given(opts, "name")
    && r.iface == Given(opts, "interface")
    && r.port == (if "port" in opts then PortString(opts["port"]) else None)
    && r.addr == (if "target" in opts then o.lookup(opts["target"]) else None)
    && (r.maxConns.Some? <==> "maxconns" in opts)
    && (r.maxConns.Some? ==> Atoi(opts["maxconns"]) == Some(r.maxConns.value))
    && (r.dialTimeout.Some? <==> "dialtimeout" in opts)
    && (r.dialTimeout.Some? ==> o.duration(opts["dialtimeout"]) == Some(r.dialTimeout.value))
    && (I2CPFaithful(); r.i2cp == Extracted(I2CP, opts))
  }

  /** Which option maps are accepted, option by option. */
  lemma AcceptedExactlyWhen(o: Oracles, opts: Options)
    ensures FirstError(o, opts) == None <==>
      && ("name" in opts ==> exists i :: 0 <= i < |opts["name"]| && !IsSpace(opts["name"][i]))
      && ("interface" in opts ==> opts["interface"] == "" || o.isIP(opts["interface"]))
      && ("port" in opts ==> exists p :: 1 <= p <= 65535 && Atoi(opts["port"]) == Some(p))
      && ("target" in opts ==>
        opts["target"] != "" && o.isI2P(opts["target"]) && o.lookup(opts["target"]).Some?)
      && ("maxconns" in opts ==> exists n :: n >= 0 && Atoi(opts["maxconns"]) == Some(n))
      && ("dialtimeout" in opts ==> exists d :: d >= 0 && o.duration(opts["dialtimeout"]) == Some(d))
  {
    hide TrimSpace, Atoi, IsSpace;
    if "name" in opts {
      NotBlank(opts["name"]);
    }
  }

  /** A text is blank exactly when it is all space. */
  lemma NotBlank(s: string)
    ensures TrimSpace(s) != "" <==> exists i :: 0 <= i < |s| && !IsSpace(s[i])
  {
    hide TrimSpace, IsSpace;
    var from, to := TrimSpacePiece(s);
    if TrimSpace(s) != "" {
      assert TrimSpace(s)[0] == s[from];
    }
  }

  /** The first failing option, in the order of the checks, decides which error is returned. */
  lemma FirstErrorNames(o: Oracles, opts: Options)
    ensures FirstError(o, opts) == Some(EmptyTarget) ==> "target" in opts && opts["target"] == ""
    ensures FirstError(o, opts) == Some(BadTarget) ==> "target" in opts && !o.isI2P(opts["target"])
    ensures FirstError(o, opts) == Some(LookupFailed) ==>
      "target" in opts && o.isI2P(opts["target"]) && o.lookup(opts["target"]) == None
    ensures FirstError(o, opts) == Some(BadMaxConns) ==> "maxconns" in opts && Atoi(opts["maxconns"]) == None
    ensures FirstError(o, opts) == Some(NegativeMaxConns) ==>
      "maxconns" in opts && Atoi(opts["maxconns"]).Some? && Atoi(opts["maxconns"]).value < 0
    ensures FirstError(o, opts) == Some(BadTimeout) ==>
      "dialtimeout" in opts
      && (o.duration(opts["dialtimeout"]) == None || o.duration(opts["dialtimeout"]).value < 0)
  {
    hide TrimSpace, Atoi;
  }

  /** The options record behind the pointer that the validators fill. */
  class OptsBuilder {
    var o: TcpOpts

    constructor ()
      ensures o == NO_OPTS
    {
      o := NO_OPTS;
    }

    method ValidatePortOpt(opts: Options) returns (err: Option<TcpError>)
      modifies this
      ensures err == if PortOk(opts) then None else Some(Common(BadPort))
      ensures o == old(o).(port := o.port)
      ensures err == None ==> o.port == if "port" in opts then PortString(opts["port"]) else old(o.port)
    {
      if "port" in opts {
        var port := PortString(opts["port"]);
        if port == None { return Some(Common(BadPort)); }
        o := o.(port := port);
      }
      return None;
    }

    method ValidateNameIfacePort(oracles: Oracles, opts: Options) returns (err: Option<TcpError>)
      modifies this
      ensures err == CommonError(oracles, opts)
      ensures o == old(o).(name := o.name, iface := o.iface, port := o.port)
      ensures err == None ==>
        && o.name == (if "name" in opts then Some(opts["name"]) else old(o.name))
        && o.iface == (if "interface" in opts then Some(opts["interface"]) else old(o.iface))
        && o.port == (if "port" in opts then PortString(opts["port"]) else old(o.port))
    {
      if "name" in opts {
        if TrimSpace(opts["name"]) == "" { return Some(Common(BlankName)); }
        o := o.(name := Some(opts["name"]));
      }
      if "interface" in opts {
        var iface := opts["interface"];
        if iface != "" && !oracles.isIP(iface) { return Some(Common(BadInterface)); }
        o := o.(iface := Some(iface));
      }
      err := ValidatePortOpt(opts);
    }

    method ValidateTarget(oracles: Oracles, target: string) returns (err: Option<TcpError>)
      modifies this
      ensures err == TargetError(oracles, map["target" := target])
      ensures o == old(o).(addr := o.addr)
      ensures err == None ==> o.addr == oracles.lookup(target)
    {
      if target == "" { return Some(EmptyTarget); }
      if !oracles.isI2P(target) { return Some(BadTarget); }
      var addr := oracles.lookup(target);
      if addr == None { return Some(LookupFailed); }
      o := o.(addr := addr);
      return None;
    }

    method ValidateCommonFields(oracles: Oracles, opts: Options) returns (err: Option<TcpError>)
      modifies this
      ensures err == if CommonError(oracles, opts).Some? then CommonError(oracles, opts) else TargetError(oracles, opts)
      ensures o == old(o).(name := o.name, iface := o.iface, port := o.port, addr := o.addr)
      ensures err == None ==>
        && o.name == (if "name" in opts then Some(opts["name"]) else old(o.name))
        && o.iface == (if "interface" in opts then Some(opts["interface"]) else old(o.iface))
        && o.port == (if "port" in opts then PortString(opts["port"]) else old(o.port))
        && o.addr == (if "target" in opts then oracles.lookup(opts["target"]) else old(o.addr))
    {
      err := ValidateNameIfacePort(oracles, opts);
      if err.Some? { return; }
      if "target" in opts {
        err := ValidateTarget(oracles, opts["target"]);
      }
    }

    method ValidateTCPSpecificFields(oracles: Oracles, opts: Options) returns (err: Option<TcpError>)
      modifies this
      ensures err == if MaxConnsError(opts).Some? then MaxConnsError(opts) else TimeoutError(oracles, opts)
      ensures o == old(o).(maxConns := o.maxConns, dialTimeout := o.dialTimeout)
      ensures err == None ==>
        && (if "maxconns" in opts then o.maxConns.Some? && Atoi(opts["maxconns"]) == Some(o.maxConns.value)
            else o.maxConns == old(o.maxConns))
        && (if "dialtimeout" in opts
            then o.dialTimeout.Some? && oracles.duration(opts["dialtimeout"]) == Some(o.dialTimeout.value)
            else o.dialTimeout == old(o.dialTimeout))
    {
      if "maxconns" in opts {
        var mc := Atoi(opts["maxconns"]);
        if mc == None { return Some(BadMaxConns); }
        if mc.value < 0 { return Some(NegativeMaxConns); }
        o := o.(maxConns := Some(mc.value));
      }
      if "dialtimeout" in opts {
        var d := oracles.duration(opts["dialtimeout"]);
        if d == None || d.value < 0 { return Some(BadTimeout); }
        o := o.(dialTimeout := Some(d.value));
      }
      return None;
    }
  }

  method ValidateTcpClientOptions(oracles: Oracles, opts: Options) returns (r: Result<TcpOpts, TcpError>)
    ensures r.Failure? <==> FirstError(oracles, opts).Some?
    ensures r.Failure? ==> FirstError(oracles, opts) == Some(r.error)
    ensures r.Success? ==> Records(oracles, opts, r.value)
  {
    var b := new OptsBuilder();
    var err := b.ValidateCommonFields(oracles, opts);
    if err.Some? { return Failure(err.value); }
    err := b.ValidateTCPSpecificFields(oracles, opts);
    if err.Some? { return Failure(err.value); }
    I2CPFaithful();
    var i2cp := ExtractI2CPOptions(I2CP, opts);
    b.o := b.o.(i2cp := if i2cp.Some? then i2cp.value else map[]);
    return Success(b.o);
  }

  /** The configuration after writing the fields that `r` sets. */
  function Configured(r: TcpOpts, cfg: TunnelConfig): TunnelConfig {
    cfg.(name := if r.name.Some? then r.name.value else cfg.name,
         iface := if r.iface.Some? then r.iface.value else cfg.iface,
         port := if r.port.Some? then r.port.value else cfg.port,
         i2cp := cfg.i2cp + r.i2cp)
  }

  /**
   Validating first and applying later leaves the same name, interface, port and I2CP map as the
   sequential ApplyCommonOptions; and whatever that rejects is rejected here with the same error.
   */
  lemma TwoPhasesAgree(oracles: Oracles, opts: Options, r: TcpOpts, cfg: TunnelConfig)
    ensures ApplyCommon(oracles.isIP, opts, cfg).error.Some?
      ==> FirstError(oracles, opts) == Some(Common(ApplyCommon(oracles.isIP, opts, cfg).error.value))
    ensures FirstError(oracles, opts) == None && Records(oracles, opts, r)
      ==> ApplyCommon(oracles.isIP, opts, cfg) == Applied(Configured(r, cfg), None)
  {
    I2CPFaithful();
    if FirstError(oracles, opts) == None && Records(oracles, opts, r) {
      OverlayFields(opts, cfg);
    }
  }
}
