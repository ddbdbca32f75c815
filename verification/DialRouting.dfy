/**
 Where the HTTP client tunnel dials (lib/http/client/http_client.go, new.go, outproxy.go): I2P names go
 out directly or through the jump service, everything else through the outproxy or not at all.
 A dial is one step; what the jump service responds, if it is asked, and the clock are parameters.
 */
module DialRouting {
  import opened Wrappers
  import opened Text
  import opened CommonOptions
  import opened HostNames
  import opened JumpParse
  import opened JumpCache

  datatype Settings = Settings(address: string, enabled: bool)

  datatype Service = Service(url: string, cache: Cache)

  /** The fields of an HTTPClient that options and dials touch; None stands for a nil pointer. */
  datatype Client = Client(config: TunnelConfig, jump: Option<Service>, outproxy: Option<Settings>)

  datatype HttpError = Common(e: OptionError) | BadOutproxy

  datatype Target = Dialled(addr: string) | Refused

  /** What the jump service would respond now, and the clock at the cache check and at the store. */
  datatype Moment = Moment(response: Option<Response>, t: int, t': int)

  function NewClient(cfg: TunnelConfig): Client {
    Client(cfg, Some(Service(DEFAULT_JUMP_SERVICE_URL, Cache(DEFAULT_CACHE_TTL, map[]))), Some(Settings("", false)))
  }

  // ---------- options ----------

  predicate OutproxyOk(opts: Options) {
    "outproxy" in opts && opts["outproxy"] != "" ==> IsI2PAddress(opts["outproxy"])
  }

  ghost function JumpAfter(opts: Options, jump: Option<Service>): Option<Service> {
    if "jumpservice" !in opts then jump
    else if opts["jumpservice"] == "" then None
    else Some(Service(opts["jumpservice"], Cache(DEFAULT_CACHE_TTL, map[])))
  }

  predicate IsYes(s: string) {
    s == "true" || s == "1" || s == "yes"
  }

  ghost function AddressAfter(opts: Options, o: Option<Settings>): Option<Settings> {
    if "outproxy" in opts then Some(Settings(opts["outproxy"], opts["outproxy"] != "")) else o
  }

  ghost function EnabledAfter(opts: Options, o: Option<Settings>): Option<Settings> {
    if "outproxy.enabled" !in opts then o
    else Some(Settings(if o.Some? then o.value.address else "", IsYes(opts["outproxy.enabled"])))
  }

  ghost function Configured(isIP: string -> bool, opts: Options, c: Client): (Client, Option<HttpError>) {
    var a := ApplyCommon(isIP, opts, c.config);
    if a.error.Some? then (c.(config := a.config), Some(Common(a.error.value)))
    else if !OutproxyOk(opts) then (c.(config := a.config), Some(BadOutproxy))
    else (Client(a.config, JumpAfter(opts, c.jump), EnabledAfter(opts, AddressAfter(opts, c.outproxy))), None)
  }

  // ---------- routing ----------

  /** The host that decides the route. */
  function HostOfAddr(addr: string): string {
    var hp := SplitHostPort(addr);
    if hp.None? || hp.value.0 == "" then addr else hp.value.0
  }

  predicate IsActive(o: Option<Settings>) {
    o.Some? && o.value.enabled && o.value.address != ""
  }

  function OutproxyDialAddress(address: string): string {
    if ':' in address then address else JoinHostPort(address, "80")
  }

  /** What resolveJumpSnapshot dials, and the service after it. */
  function Resolved(jump: Option<Service>, addr: string, m: Moment): (Option<Service>, string) {
    if jump.None? then (jump, addr)
    else
      var hp := SplitHostPort(addr);
      var (host, port) := if hp.None? then (addr, "") else hp.value;
      if !NeedsJump(host) then (jump, addr)
      else
        var (cache, dest) := LookupAlone(jump.value.cache, host, m.t, m.response, m.t');
        var after := Some(jump.value.(cache := cache));
        if dest.None? then (after, addr)
        else if port != "" then (after, JoinHostPort(dest.value, port))
        else (after, dest.value)
  }

  function Route(c: Client, addr: string, m: Moment): (Client, Target) {
    if !IsI2PAddress(HostOfAddr(addr)) then
      (c, if IsActive(c.outproxy) then Dialled(OutproxyDialAddress(c.outproxy.value.address)) else Refused)
    else
      var (jump, target) := Resolved(c.jump, addr, m);
      (c.(jump := jump), Dialled(target))
  }

  // ---------- the client ----------

  class Outproxy {
    var address: string
    var enabled: bool

    constructor ()
      ensures View() == Settings("", false)
    {
      address, enabled := "", false;
    }

    ghost function View(): Settings
      reads this
    {
      Settings(address, enabled)
    }
  }

  class HTTPClient {
    const config: ConfigCell
    var jump: JumpService?
    var outproxy: Outproxy?

    constructor (cfg: TunnelConfig)
      ensures View() == NewClient(cfg)
      ensures fresh(Parts())
    {
      config := new ConfigCell(cfg);
      jump := new JumpService(DEFAULT_JUMP_SERVICE_URL);
      outproxy := new Outproxy();
    }

    ghost function Parts(): set<object>
      reads this
    {
      {this, config} + (if jump == null then {} else {jump}) + (if outproxy == null then {} else {outproxy})
    }

    ghost function View(): Client
      reads this, Parts()
    {
      Client(config.cfg,
             if jump == null then None else Some(Service(jump.url, jump.View())),
             if outproxy == null then None else Some(outproxy.View()))
    }

    method SetOptions(isIP: string -> bool, opts: Options) returns (err: Option<HttpError>)
      modifies Parts()
      ensures fresh(Parts() - old(Parts()))
      ensures (View(), err) == Configured(isIP, opts, old(View()))
    {
      hide ApplyCommon, IsI2PAddress;
      var e := config.ApplyCommonOptions(isIP, opts);
      if e.Some? {
        return Some(Common(e.value));
      }
      if "outproxy" in opts && opts["outproxy"] != "" && !IsI2PAddress(opts["outproxy"]) {
        return Some(BadOutproxy);
      }
      if "jumpservice" in opts {
        ApplyJumpOption(opts["jumpservice"]);
      }
      if "outproxy" in opts {
        ApplyOutproxyAddress(opts["outproxy"]);
      }
      if "outproxy.enabled" in opts {
        ApplyOutproxyEnabled(opts["outproxy.enabled"]);
      }
      return None;
    }

    method ApplyJumpOption(url: string)
      modifies this`jump
      ensures jump == null || fresh(jump)
      ensures View() == old(View()).(jump := JumpAfter(map["jumpservice" := url], old(View()).jump))
    {
      if url == "" {
        jump := null;
      } else {
        jump := new JumpService(url);
      }
    }

    method ApplyOutproxyAddress(address: string)
      modifies this`outproxy, outproxy
      ensures outproxy == old(outproxy) || fresh(outproxy)
      ensures View() == old(View()).(outproxy := AddressAfter(map["outproxy" := address], old(View()).outproxy))
    {
      if outproxy == null {
        outproxy := new Outproxy();
      }
      if address == "" {
        outproxy.address := "";
        outproxy.enabled := false;
        return;
      }
      outproxy.address := address;
      outproxy.enabled := true;
    }

    method ApplyOutproxyEnabled(enabled: string)
      modifies this`outproxy, outproxy
      ensures outproxy == old(outproxy) || fresh(outproxy)
      ensures View() == old(View()).(outproxy := EnabledAfter(map["outproxy.enabled" := enabled], old(View()).outproxy))
    {
      if outproxy == null {
        outproxy := new Outproxy();
      }
      outproxy.enabled := enabled == "true" || enabled == "1" || enabled == "yes";
    }

    method ResolveJump(addr: string, m: Moment) returns (target: string)
      modifies jump
      ensures (View().jump, target) == Resolved(old(View()).jump, addr, m)
      ensures View() == old(View()).(jump := View().jump)
    {
      if jump == null {
        return addr;
      }
      var hp := SplitHostPort(addr);
      var host, port := addr, "";
      if hp.Some? {
        host, port := hp.value.0, hp.value.1;
      }
      if !NeedsJump(host) {
        return addr;
      }
      var dest := jump.Lookup(host, m.t, m.response, m.t');
      if dest.None? {
        return addr;
      }
      return if port != "" then JoinHostPort(dest.value, port) else dest.value;
    }

    method DialOutproxy() returns (target: Target)
      ensures target == if IsActive(View().outproxy) then
        Dialled(OutproxyDialAddress(View().outproxy.value.address)) else Refused
      ensures target.Dialled? <==> outproxy != null && outproxy.enabled && outproxy.address != ""
    {
      if outproxy == null || !outproxy.enabled || outproxy.address == "" {
        return Refused;
      }
      var address := outproxy.address;
      if ':' !in address {
        address := JoinHostPort(address, "80");
      }
      return Dialled(address);
    }

    method DialContext(addr: string, m: Moment) returns (target: Target)
      modifies jump
      ensures (View(), target) == Route(old(View()), addr, m)
    {
      var hp := SplitHostPort(addr);
      var host := if hp.Some? then hp.value.0 else "";
      if host == "" {
        host := addr;
      }
      if !IsI2PAddress(host) {
        target := DialOutproxy();
        return;
      }
      var a := ResolveJump(addr, m);
      return Dialled(a);
    }

    method Dial(addr: string, m: Moment) returns (target: Target)
      modifies jump
      ensures (View(), target) == Route(old(View()), addr, m)
    {
      var hp := SplitHostPort(addr);
      var host := if hp.Some? then hp.value.0 else "";
      if host == "" {
        host := addr;
      }
      if !IsI2PAddress(host) {
        target := DialOutproxy();
        return;
      }
      var a := ResolveJump(addr, m);
      return Dialled(a);
    }

    method ConnectDial(addr: string, m: Moment) returns (target: Target)
      modifies jump
      ensures (View(), target) == Route(old(View()), addr, m)
    {
      var hp := SplitHostPort(addr);
      var host := if hp.Some? then hp.value.0 else "";
      if host == "" {
        host := addr;
      }
      if !IsI2PAddress(host) {
        target := DialOutproxy();
      } else {
        var a := ResolveJump(addr, m);
        target := Dialled(a);
      }
    }
  }

  // ---------- properties ----------

  /** A failed SetOptions touches neither the jump service nor the outproxy, but may have changed the rest. */
  lemma FailedSetOptionsIsPartial(isIP: string -> bool, opts: Options, c: Client)
    requires Configured(isIP, opts, c).1.Some?
    ensures var (after, err) := Configured(isIP, opts, c);
      && after.jump == c.jump && after.outproxy == c.outproxy
      && after.config == ApplyCommon(isIP, opts, c.config).config
      && (err.value == BadOutproxy <==> ApplyCommon(isIP, opts, c.config).error == None)
  {
    hide ApplyCommon;
  }

  predicate AddressOk(o: Option<Settings>) {
    o.Some? && (o.value.address == "" || IsI2PAddress(o.value.address))
  }

  ghost function AfterAll(isIP: string -> bool, history: seq<Options>, c: Client): Client {
    if history == [] then c
    else Configured(isIP, history[|history| - 1], AfterAll(isIP, history[..|history| - 1], c)).0
  }

  /** From construction, over any calls of SetOptions, the outproxy address is empty or an I2P address. */
  lemma {:induction false} OutproxyStaysI2P(isIP: string -> bool, history: seq<Options>, cfg: TunnelConfig)
    ensures AddressOk(AfterAll(isIP, history, NewClient(cfg)).outproxy)
  {
    hide ApplyCommon, IsI2PAddress;
    if history != [] {
      OutproxyStaysI2P(isIP, history[..|history| - 1], cfg);
    }
  }

  /** Adding the default port keeps the address an I2P address. */
  lemma DialAddressIsI2P(address: string)
    requires IsI2PAddress(address)
    ensures IsI2PAddress(OutproxyDialAddress(address))
  {
    if ':' !in address {
      StripNoColon(address);
      StripOf(address, "80");
      assert JoinHostPort(address, "80") == address + ":" + "80";
    }
  }

  /** An I2P route has a host part, and the jump service is asked about that host. */
  lemma SameHost(addr: string)
    requires IsI2PAddress(HostOfAddr(addr))
    ensures SplitHostPort(addr).Some? ==> SplitHostPort(addr).value.0 == HostOfAddr(addr) != ""
  {
    var hp := SplitHostPort(addr);
    if hp.Some? && hp.value.0 == "" {
      NoHostNoI2P(addr);
    }
  }

  lemma NoHostNoI2P(addr: string)
    requires SplitHostPort(addr).Some? && SplitHostPort(addr).value.0 == ""
    ensures !IsI2PAddress(addr)
  {
    var i := LastIndexOf(addr, ':');
    if addr[0] == '[' {
      assert i == 2 && addr[..i] == [addr[0], addr[1]];
    } else {
      assert i == 0;
    }
  }

  /** The jump service's answer for the host that decides the route, with the port put back. */
  ghost function JumpAnswer(c: Client, addr: string, m: Moment): Option<string> {
    if c.jump.None? || !NeedsJump(HostOfAddr(addr)) then None
    else
      var dest := LookupAlone(c.jump.value.cache, HostOfAddr(addr), m.t, m.response, m.t').1;
      var hp := SplitHostPort(addr);
      if dest.Some? && hp.Some? && hp.value.1 != "" then Some(JoinHostPort(dest.value, hp.value.1)) else dest
  }

  /**
   An I2P host is never refused: its jump answer is dialled when there is one, and otherwise the requested
   address. A base32 host is dialled as it is, and the jump service is not asked.
   */
  lemma I2PRoute(c: Client, addr: string, m: Moment)
    requires IsI2PAddress(HostOfAddr(addr))
    ensures var (after, target) := Route(c, addr, m);
      && target == Dialled(if JumpAnswer(c, addr, m).Some? then JumpAnswer(c, addr, m).value else addr)
      && after == c.(jump := after.jump)
      && (!NeedsJump(HostOfAddr(addr)) ==> after == c && target == Dialled(addr))
  {
    hide IsI2PAddress, NeedsJump, SplitHostPort, JoinHostPort, LookupAlone;
    SameHost(addr);
  }

  /**
   When a jump answer is dialled for an address with a port, the dialled address splits back into the answer
   and that port exactly when the answer has no brackets; an I2P destination has none.
   */
  lemma JumpTargetSplits(c: Client, addr: string, m: Moment, dest: string, port: string)
    requires IsI2PAddress(HostOfAddr(addr)) && NeedsJump(HostOfAddr(addr)) && c.jump.Some?
    requires LookupAlone(c.jump.value.cache, HostOfAddr(addr), m.t, m.response, m.t').1 == Some(dest)
    requires SplitHostPort(addr) == Some((HostOfAddr(addr), port)) && port != ""
    ensures Route(c, addr, m).1.Dialled?
    ensures SplitHostPort(Route(c, addr, m).1.addr) == Some((dest, port)) <==> NoBrackets(dest)
    ensures LooksLikeDestination(dest) ==> NoBrackets(dest)
  {
    hide IsI2PAddress, NeedsJump, SplitHostPort, LookupAlone, Route, NoBrackets, LooksLikeDestination;
    I2PRoute(c, addr, m);
    SplitParts(addr);
    SplitJoined(dest, port);
    if LooksLikeDestination(dest) {
      DestinationHasNoBrackets(dest);
    }
  }

  lemma DestinationHasNoBrackets(d: string)
    requires LooksLikeDestination(d)
    ensures NoBrackets(d)
  {
  }

  // ---------- what a history of options leaves in force ----------

  /** SetOptions accepts these options; this depends on nothing else. */
  predicate Accepted(isIP: string -> bool, opts: Options) {
    && NameOk(opts) && InterfaceOk(isIP, opts) && PortOk(opts)
    && ("outproxy" in opts ==> opts["outproxy"] == "" || IsI2PAddress(opts["outproxy"]))
  }

  lemma AcceptedExactlyWhen(isIP: string -> bool, opts: Options, c: Client)
    ensures Configured(isIP, opts, c).1.None? <==> Accepted(isIP, opts)
  {
    hide NameOk, InterfaceOk, PortOk, IsI2PAddress, Overlay, WithName, WithInterface;
  }

  /** The outproxy address set last, "" from the start. */
  function AddressInForce(isIP: string -> bool, history: seq<Options>): string {
    if history == [] then ""
    else
      var o := history[|history| - 1];
      if Accepted(isIP, o) && "outproxy" in o then o["outproxy"]
      else AddressInForce(isIP, history[..|history| - 1])
  }

  /**
   Whether the outproxy is switched on: by "outproxy.enabled" when it came last, or by an address, which
   switches it on, and an empty address, which switches it off.
   */
  function SwitchedOn(isIP: string -> bool, history: seq<Options>): bool {
    if history == [] then false
    else
      var o := history[|history| - 1];
      if Accepted(isIP, o) && "outproxy.enabled" in o then
        o["outproxy.enabled"] == "true" || o["outproxy.enabled"] == "1" || o["outproxy.enabled"] == "yes"
      else if Accepted(isIP, o) && "outproxy" in o then o["outproxy"] != ""
      else SwitchedOn(isIP, history[..|history| - 1])
  }

  /** The URL of the jump service, None when it was disabled. */
  function JumpURL(isIP: string -> bool, history: seq<Options>): Option<string> {
    if history == [] then Some("http://stats.i2p/cgi-bin/jump.cgi")
    else
      var o := history[|history| - 1];
      if Accepted(isIP, o) && "jumpservice" in o then
        (if o["jumpservice"] == "" then None else Some(o["jumpservice"]))
      else JumpURL(isIP, history[..|history| - 1])
  }

  /** A jump service is replaced only when its option is given: by none, or by one that has cached nothing. */
  lemma JumpIsReplaced(isIP: string -> bool, opts: Options, c: Client)
    requires Accepted(isIP, opts)
    ensures Configured(isIP, opts, c).0.jump ==
      if "jumpservice" !in opts then c.jump
      else if opts["jumpservice"] == "" then None
      else Some(Service(opts["jumpservice"], Cache(60 * 60 * 1000, map[])))
  {
    hide Accepted, ApplyCommon;
    AcceptedExactlyWhen(isIP, opts, c);
  }

  /** After any calls of SetOptions, outproxy and jump service are those that the accepted options name last. */
  lemma {:induction false} OptionsInForce(isIP: string -> bool, history: seq<Options>, cfg: TunnelConfig)
    ensures var c := AfterAll(isIP, history, NewClient(cfg));
      && c.outproxy == Some(Settings(AddressInForce(isIP, history), SwitchedOn(isIP, history)))
      && c.jump.Some? == JumpURL(isIP, history).Some?
      && (c.jump.Some? ==> c.jump.value.url == JumpURL(isIP, history).value)
  {
    hide Accepted, ApplyCommon;
    if history != [] {
      var before := history[..|history| - 1];
      OptionsInForce(isIP, before, cfg);
      AcceptedExactlyWhen(isIP, history[|history| - 1], AfterAll(isIP, before, NewClient(cfg)));
    }
  }

  /**
   A host that is no I2P name is dialled through the outproxy, at the address set last, with ":80" when it has no
   colon; it is refused exactly when that address is empty or the outproxy is switched off. It is never dialled or
   looked up itself.
   */
  lemma ClearnetRoute(isIP: string -> bool, history: seq<Options>, cfg: TunnelConfig, addr: string, m: Moment)
    requires !IsI2PAddress(HostOfAddr(addr))
    ensures var c := AfterAll(isIP, history, NewClient(cfg));
      var (after, target) := Route(c, addr, m);
      var a := AddressInForce(isIP, history);
      && after == c
      && (target.Refused? <==> a == "" || !SwitchedOn(isIP, history))
      && (target.Dialled? ==> IsI2PAddress(target.addr) && target.addr == if ':' in a then a else a + ":80")
  {
    hide AfterAll, IsI2PAddress, AddressInForce, SwitchedOn;
    OptionsInForce(isIP, history, cfg);
    OutproxyStaysI2P(isIP, history, cfg);
    var c := AfterAll(isIP, history, NewClient(cfg));
    if IsActive(c.outproxy) {
      DialAddressIsI2P(c.outproxy.value.address);
    }
  }

  /** The host that decides the route is the one before the port, and the whole address when it has no port. */
  lemma RouteHost(host: string, port: string)
    requires host != "" && NoBrackets(host) && ':' !in port && NoBrackets(port)
    ensures HostOfAddr(JoinHostPort(host, port)) == host
    ensures ':' !in host ==> HostOfAddr(host) == host
  {
    hide SplitHostPort, JoinHostPort, NoBrackets;
    SplitJoined(host, port);
    if ':' !in host {
      NoPort(host);
    }
  }

  lemma NoPort(host: string)
    requires ':' !in host
    ensures SplitHostPort(host) == None
  {
  }

  /** An address whose host ends in ".b32.i2p" in any case is dialled as it is, and nothing is looked up. */
  lemma Base32IsDirect(c: Client, addr: string, m: Moment, h: string)
    requires HasHost(HostOfAddr(addr), h) && EndsIn(h, ".b32.i2p")
    ensures Route(c, addr, m) == (c, Dialled(addr))
  {
    hide HasHost, EndsIn, IsI2PAddress, NeedsJump, HostOfAddr, Route;
    I2PNames(HostOfAddr(addr), h);
    LongerEnding(h);
    I2PRoute(c, addr, m);
  }

  lemma LongerEnding(h: string)
    requires EndsIn(h, ".b32.i2p")
    ensures EndsIn(h, ".i2p")
  {
    var p :| SameLetters(h, p + ".b32.i2p");
    assert p + ".b32.i2p" == (p + ".b32") + ".i2p";
  }
}
