/**
 The option map shared by all tunnel types (lib/core/options.go, lib/core/i2cp.go): printing
 a configuration to a string map, and applying such a map to a configuration field by field.
 net.ParseIP is an oracle, `isIP`.
 */
module CommonOptions {
  import opened Wrappers
  import opened PrefixedMaps
  import opened Text

  /** A value of the I2CP map, which holds whatever the configuration parser produced. */
  datatype Value = Str(s: string) | Num(n: int) | Flag(b: bool)

  datatype TunnelConfig =
    TunnelConfig(name: string, kind: string, iface: string, port: int, i2cp: map<string, Value>)

  datatype OptionError = BlankName | BadInterface | BadPort

  type Options = map<string, string>

  const PREFIX := "i2cp."

  /** fmt.Sprintf("%v", v). */
  function Sprint(v: Value): string {
    match v
    case Str(s) => s
    case Num(n) => Itoa(n)
    case Flag(b) => if b then "true" else "false"
  }

  // ---------- validators ----------

  predicate ValidName(s: string) {
    TrimSpace(s) != ""
  }

  predicate ValidInterface(isIP: string -> bool, s: string) {
    s == "" || isIP(s)
  }

  /** validate.PortString: a decimal integer between 1 and 65535. */
  function PortString(s: string): (p: Option<int>)
    ensures p.Some? ==> 1 <= p.value <= 65535
  {
    var n := Atoi(s);
    if n.Some? && 1 <= n.value <= 65535 then n else None
  }

  predicate NameOk(opts: Options) {
    "name" in opts ==> ValidName(opts["name"])
  }

  predicate InterfaceOk(isIP: string -> bool, opts: Options) {
    "interface" in opts ==> ValidInterface(isIP, opts["interface"])
  }

  predicate PortOk(opts: Options) {
    "port" in opts ==> PortString(opts["port"]).Some?
  }

  // ---------- I2CP keys ----------

  /** "i2cp." + j, and strings.TrimPrefix as its inverse. */
  const I2CP: Coding :=
    Coding((j: string) => PREFIX + j, (k: string) => if HasPrefix(k, PREFIX) then k[|PREFIX|..] else "")

  lemma I2CPFaithful()
    ensures Faithful(I2CP)
  {
    forall j ensures I2CP.suffix(I2CP.key(j)) == j {
      assert (PREFIX + j)[|PREFIX|..] == j;
    }
  }

  /** A key is coded exactly when strings.HasPrefix(k, "i2cp."). */
  lemma I2CPKeys(k: string)
    ensures IsKey(I2CP, k) <==> HasPrefix(k, PREFIX)
    ensures HasPrefix(k, PREFIX) ==> k == PREFIX + I2CP.suffix(k)
  {
  }

  /** The non-empty entries of a string map, as I2CP values. */
  ghost function NonEmpty(m: Options): map<string, Value> {
    map j | j in m && m[j] != "" :: Str(m[j])
  }

  ghost function Shown(i2cp: map<string, Value>): Options {
    map j | j in i2cp :: Sprint(i2cp[j])
  }

  /** The non-empty coded entries of `opts`, under their uncoded keys. */
  ghost function Extracted(c: Coding, opts: Options): map<string, Value>
    requires Faithful(c)
  {
    NonEmpty(Decoded(c, opts))
  }

  /** `opts` with the I2CP map printed over it under coded keys. */
  ghost function Merged(c: Coding, i2cp: map<string, Value>, opts: Options): Options
    requires Faithful(c)
  {
    opts + Encoded(c, Shown(i2cp))
  }

  method MergeI2CPOptions(c: Coding, i2cp: map<string, Value>, opts: Options) returns (r: Options)
    requires Faithful(c)
    ensures r == Merged(c, i2cp, opts)
  {
    r := opts;
    var rest := i2cp.Keys;
    ghost var seen: map<string, Value>, printed: Options := map[], map[];
    while rest != {}
      invariant rest <= i2cp.Keys
      invariant seen == (map k | k in i2cp.Keys - rest :: i2cp[k])
      invariant IsEncoded(c, Shown(seen), printed)
      invariant r == opts + printed
      decreases |rest|
    {
      var k :| k in rest;
      PrintedStep(c, seen, printed, k, i2cp[k]);
      UpdateSum(opts, printed, c.key(k), Sprint(i2cp[k]));
      r := r[c.key(k) := Sprint(i2cp[k])];
      printed := printed[c.key(k) := Sprint(i2cp[k])];
      seen := seen[k := i2cp[k]];
      rest := rest - {k};
    }
    assert seen == i2cp;
    EncodedUnique(c, Shown(i2cp), printed, Encoded(c, Shown(i2cp)));
  }

  lemma PrintedStep(c: Coding, m: map<string, Value>, printed: Options, k: string, v: Value)
    requires Faithful(c) && IsEncoded(c, Shown(m), printed)
    ensures IsEncoded(c, Shown(m[k := v]), printed[c.key(k) := Sprint(v)])
  {
    EncodedStep(c, Shown(m), printed, k, Sprint(v));
    assert Shown(m[k := v]) == Shown(m)[k := Sprint(v)];
  }

  lemma UpdateSum<K, V>(a: map<K, V>, b: map<K, V>, k: K, v: V)
    ensures (a + b)[k := v] == a + b[k := v]
  {
  }

  lemma NonEmptyStep(m: Options, k: string, v: string)
    requires k !in m
    ensures NonEmpty(m[k := v]) == if v != "" then NonEmpty(m)[k := Str(v)] else NonEmpty(m)
  {
  }

  lemma ExtractedStep(c: Coding, m: Options, k: string, v: string)
    requires Faithful(c) && k !in m
    ensures Extracted(c, m[k := v]) ==
      if IsKey(c, k) && v != "" then Extracted(c, m)[c.suffix(k) := Str(v)] else Extracted(c, m)
  {
    var tails := Decoded(c, m);
    DecodedStep(c, m, tails, k, v);
    var next := if IsKey(c, k) then tails[c.suffix(k) := v] else tails;
    DecodedUnique(c, m[k := v], next, Decoded(c, m[k := v]));
    if IsKey(c, k) {
      NonEmptyStep(tails, c.suffix(k), v);
    }
  }

  lemma NothingExtracted(c: Coding)
    requires Faithful(c)
    ensures Extracted(c, map[]) == map[]
  {
    assert Decoded<string>(c, map[]) == map[];
  }

  /** Nil when no I2CP entry is present. */
  method ExtractI2CPOptions(c: Coding, opts: Options) returns (r: Option<map<string, Value>>)
    requires Faithful(c)
    ensures r == if Extracted(c, opts) == map[] then None else Some(Extracted(c, opts))
  {
    var i2cp: map<string, Value> := map[];
    var rest := opts.Keys;
    NothingExtracted(c);
    MinusEnds(opts);
    while rest != {}
      invariant rest <= opts.Keys
      invariant i2cp == Extracted(c, opts - rest)
      decreases |rest|
    {
      var k :| k in rest;
      ExtractedMore(c, opts, rest, k);
      if c.key(c.suffix(k)) == k && opts[k] != "" {
        i2cp := i2cp[c.suffix(k) := Str(opts[k])];
      }
      rest := rest - {k};
    }
    r := if i2cp == map[] then None else Some(i2cp);
  }

  lemma ExtractedMore(c: Coding, opts: Options, rest: set<string>, k: string)
    requires Faithful(c) && k in rest && rest <= opts.Keys
    ensures Extracted(c, opts - (rest - {k})) ==
      if IsKey(c, k) && opts[k] != "" then Extracted(c, opts - rest)[c.suffix(k) := Str(opts[k])]
      else Extracted(c, opts - rest)
  {
    ExtractedStep(c, opts - rest, k, opts[k]);
    OneMore(opts, rest, k);
  }

  lemma MinusEnds<K, V>(m: map<K, V>)
    ensures m - m.Keys == map[] && m - {} == m
  {
  }

  lemma OneMore<K, V>(m: map<K, V>, rest: set<K>, k: K)
    requires k in rest && rest <= m.Keys
    ensures m - (rest - {k}) == (m - rest)[k := m[k]]
  {
  }

  /** Writing the entries of `extra` into `base` one at a time, in any order. */
  method Overwrite<K(==), V>(base: map<K, V>, extra: map<K, V>) returns (r: map<K, V>)
    ensures r == base + extra
  {
    r := base;
    var rest := extra.Keys;
    while rest != {}
      invariant rest <= extra.Keys
      invariant r.Keys == base.Keys + (extra.Keys - rest)
      invariant forall k :: k in r ==> r[k] == if k in extra.Keys - rest then extra[k] else base[k]
      decreases |rest|
    {
      var k :| k in rest;
      r := r[k := extra[k]];
      rest := rest - {k};
    }
  }

  // ---------- printing ----------

  ghost function CoreEntries(cfg: TunnelConfig): Options {
    map["name" := cfg.name, "type" := cfg.kind, "interface" := cfg.iface, "port" := Itoa(cfg.port)]
  }

  ghost function Built(cfg: TunnelConfig): Options {
    I2CPFaithful();
    Merged(I2CP, cfg.i2cp, CoreEntries(cfg))
  }

  method BuildCommonOptions(cfg: TunnelConfig) returns (opts: Options)
    ensures opts == Built(cfg)
  {
    opts := map[];
    opts := opts["name" := cfg.name];
    opts := opts["type" := cfg.kind];
    opts := opts["interface" := cfg.iface];
    opts := opts["port" := Itoa(cfg.port)];
    assert opts == CoreEntries(cfg);
    I2CPFaithful();
    opts := MergeI2CPOptions(I2CP, cfg.i2cp, opts);
  }

  /**
   What the printed map shows: the four fields, and each I2CP entry under its prefixed key, text as it is, numbers
   in decimal and flags as words.
   */
  lemma BuiltShows(cfg: TunnelConfig)
    ensures var o := Built(cfg);
      && "name" in o && o["name"] == cfg.name && "type" in o && o["type"] == cfg.kind
      && "interface" in o && o["interface"] == cfg.iface
      && "port" in o && (MIN_INT64 <= cfg.port <= MAX_INT64 ==> Atoi(o["port"]) == Some(cfg.port))
    ensures forall k :: k in cfg.i2cp ==>
      "i2cp." + k in Built(cfg) && Shows(Built(cfg)["i2cp." + k], cfg.i2cp[k])
  {
    hide Atoi, Itoa, Built, CoreEntries, Shows;
    I2CPFaithful();
    BuiltEntries(cfg);
    CoreHas(cfg);
    AtoiItoa(cfg.port);
    forall k | k in cfg.i2cp ensures "i2cp." + k in Built(cfg) && Shows(Built(cfg)["i2cp." + k], cfg.i2cp[k]) {
      BuiltEntry(cfg, k);
    }
  }

  /** The text stands for the value. */
  ghost predicate Shows(text: string, v: Value) {
    match v
    case Str(s) => text == s
    case Num(n) => MIN_INT64 <= n <= MAX_INT64 ==> Atoi(text) == Some(n)
    case Flag(b) => text == if b then "true" else "false"
  }

  lemma BuiltEntry(cfg: TunnelConfig, k: string)
    requires k in cfg.i2cp
    ensures PREFIX + k in Built(cfg) && Shows(Built(cfg)[PREFIX + k], cfg.i2cp[k])
  {
    hide Atoi, Itoa;
    I2CPFaithful();
    var printed := Encoded(I2CP, Shown(cfg.i2cp));
    assert I2CP.key(k) == PREFIX + k && I2CP.suffix(I2CP.key(k)) == k;
    assert IsKey(I2CP, I2CP.key(k));
    assert I2CP.key(k) in printed;
    if cfg.i2cp[k].Num? {
      AtoiItoa(cfg.i2cp[k].n);
    }
  }

  // ---------- applying ----------

  ghost function WithName(opts: Options, cfg: TunnelConfig): TunnelConfig {
    if "name" in opts then cfg.(name := opts["name"]) else cfg
  }

  ghost function WithInterface(opts: Options, cfg: TunnelConfig): TunnelConfig {
    if "interface" in opts then cfg.(iface := opts["interface"]) else cfg
  }

  ghost function WithPort(opts: Options, cfg: TunnelConfig): TunnelConfig
    requires PortOk(opts)
  {
    if "port" in opts then cfg.(port := PortString(opts["port"]).value) else cfg
  }

  ghost function WithI2CP(opts: Options, cfg: TunnelConfig): TunnelConfig {
    I2CPFaithful();
    cfg.(i2cp := cfg.i2cp + Extracted(I2CP, opts))
  }

  /** The configuration with every entry of a valid option map applied. */
  ghost function Overlay(opts: Options, cfg: TunnelConfig): TunnelConfig
    requires PortOk(opts)
  {
    WithI2CP(opts, WithPort(opts, WithInterface(opts, WithName(opts, cfg))))
  }

  datatype Applied = Applied(config: TunnelConfig, error: Option<OptionError>)

  /** ApplyCommonOptions as a function: the configuration it leaves behind and its error. */
  ghost function ApplyCommon(isIP: string -> bool, opts: Options, cfg: TunnelConfig): Applied {
    if !NameOk(opts) then Applied(cfg, Some(BlankName))
    else if !InterfaceOk(isIP, opts) then Applied(WithName(opts, cfg), Some(BadInterface))
    else if !PortOk(opts) then Applied(WithInterface(opts, WithName(opts, cfg)), Some(BadPort))
    else Applied(Overlay(opts, cfg), None)
  }

  /** A TunnelConfig behind a pointer; the apply helpers write it one field at a time. */
  class ConfigCell {
    var cfg: TunnelConfig

    constructor (cfg: TunnelConfig)
      ensures this.cfg == cfg
    {
      this.cfg := cfg;
    }

    method ApplyNameOption(opts: Options) returns (err: Option<OptionError>)
      modifies this
      ensures err == if NameOk(opts) then None else Some(BlankName)
      ensures cfg == if NameOk(opts) then WithName(opts, old(cfg)) else old(cfg)
    {
      if "name" in opts {
        if TrimSpace(opts["name"]) == "" {
          return Some(BlankName);
        }
        cfg := cfg.(name := opts["name"]);
      }
      return None;
    }

    method ApplyInterfaceOption(isIP: string -> bool, opts: Options) returns (err: Option<OptionError>)
      modifies this
      ensures err == if InterfaceOk(isIP, opts) then None else Some(BadInterface)
      ensures cfg == if InterfaceOk(isIP, opts) then WithInterface(opts, old(cfg)) else old(cfg)
    {
      if "interface" in opts {
        var iface := opts["interface"];
        if iface != "" && !isIP(iface) {
          return Some(BadInterface);
        }
        cfg := cfg.(iface := iface);
      }
      return None;
    }

    method ApplyPortOption(opts: Options) returns (err: Option<OptionError>)
      modifies this
      ensures err == if PortOk(opts) then None else Some(BadPort)
      ensures cfg == if PortOk(opts) then WithPort(opts, old(cfg)) else old(cfg)
    {
      if "port" in opts {
        var port := PortString(opts["port"]);
        if port == None {
          return Some(BadPort);
        }
        cfg := cfg.(port := port.value);
      }
      return None;
    }

    method MergeI2CPOptionsInto(opts: Options)
      modifies this
      ensures cfg == WithI2CP(opts, old(cfg))
    {
      I2CPFaithful();
      var extracted := ExtractI2CPOptions(I2CP, opts);
      if extracted.Some? {
        var merged := Overwrite(cfg.i2cp, extracted.value);
        cfg := cfg.(i2cp := merged);
      } else {
        assert cfg.i2cp + Extracted(I2CP, opts) == cfg.i2cp;
      }
    }

    method ApplyCommonOptions(isIP: string -> bool, opts: Options) returns (err: Option<OptionError>)
      modifies this
      ensures Applied(cfg, err) == ApplyCommon(isIP, opts, old(cfg))
    {
      err := ApplyNameOption(opts);
      if err.Some? { return; }
      err := ApplyInterfaceOption(isIP, opts);
      if err.Some? { return; }
      err := ApplyPortOption(opts);
      if err.Some? { return; }
      MergeI2CPOptionsInto(opts);
    }
  }

  // ---------- properties ----------

  /**
   A failing apply leaves exactly the keys before the failing one applied, in the order name,
   interface, port, and never touches the type, the port or the I2CP map.
   */
  lemma FailedApplyIsPartial(isIP: string -> bool, opts: Options, cfg: TunnelConfig)
    requires ApplyCommon(isIP, opts, cfg).error.Some?
    ensures var Applied(after, err) := ApplyCommon(isIP, opts, cfg);
      && after.kind == cfg.kind && after.port == cfg.port && after.i2cp == cfg.i2cp
      && (after.name == if "name" in opts && err.value != BlankName then opts["name"] else cfg.name)
      && (after.iface == if "interface" in opts && err.value == BadPort then opts["interface"] else cfg.iface)
      && (err.value == BlankName <==> "name" in opts && !ValidName(opts["name"]))
  {
  }

  /** What a configuration must look like for its printed form to be accepted and to restore it. */
  ghost predicate Printable(isIP: string -> bool, cfg: TunnelConfig) {
    && ValidName(cfg.name) && ValidInterface(isIP, cfg.iface) && 1 <= cfg.port <= 65535
    && forall k :: k in cfg.i2cp ==> cfg.i2cp[k].Str? && cfg.i2cp[k].s != ""
  }

  lemma CoreUncoded(cfg: TunnelConfig)
    ensures forall k :: k in CoreEntries(cfg) ==> !IsKey(I2CP, k)
  {
    forall k | k in CoreEntries(cfg) ensures !IsKey(I2CP, k) {
      I2CPKeys(k);
      assert k[0] != PREFIX[0] || k[1] != PREFIX[1];
    }
  }

  /** Entries under uncoded keys survive the merge, and extracting gives the printed map back. */
  lemma MergeKeepsCore(c: Coding, i2cp: map<string, Value>, core: Options)
    requires Faithful(c)
    requires forall k :: k in core ==> !IsKey(c, k)
    ensures var o := Merged(c, i2cp, core);
      && (forall k :: k in core ==> k in o && o[k] == core[k])
      && Extracted(c, o) == NonEmpty(Shown(i2cp))
  {
    var printed := Encoded(c, Shown(i2cp));
    DecodedEncoded(c, core, Shown(i2cp), printed);
    DecodedUnique(c, core + printed, Decoded(c, core + printed), Shown(i2cp));
  }

  lemma BuiltEntries(cfg: TunnelConfig)
    requires Faithful(I2CP)
    ensures forall k :: k in CoreEntries(cfg) ==> k in Built(cfg) && Built(cfg)[k] == CoreEntries(cfg)[k]
    ensures Extracted(I2CP, Built(cfg)) == NonEmpty(Shown(cfg.i2cp))
  {
    CoreUncoded(cfg);
    MergeKeepsCore(I2CP, cfg.i2cp, CoreEntries(cfg));
  }

  /** Showing an I2CP map gives it back exactly when its values are non-empty strings. */
  lemma ShownAgain(i2cp: map<string, Value>)
    ensures NonEmpty(Shown(i2cp)) == i2cp
      <==> forall k :: k in i2cp ==> i2cp[k].Str? && i2cp[k].s != ""
  {
    var e := NonEmpty(Shown(i2cp));
    if e == i2cp {
      forall k | k in i2cp ensures i2cp[k].Str? && i2cp[k].s != "" {
        assert k in e;
      }
    }
    if forall k :: k in i2cp ==> i2cp[k].Str? && i2cp[k].s != "" {
      assert e.Keys == i2cp.Keys;
    }
  }

  /** Applying any map that holds the four core entries of `cfg`. */
  lemma ApplyCore(isIP: string -> bool, cfg: TunnelConfig, opts: Options, blank: TunnelConfig)
    requires "name" in opts && opts["name"] == cfg.name
    requires "interface" in opts && opts["interface"] == cfg.iface
    requires "port" in opts && opts["port"] == Itoa(cfg.port)
    requires blank.i2cp == map[] && Faithful(I2CP)
    ensures var Applied(after, err) := ApplyCommon(isIP, opts, blank);
      && (err == None <==> ValidName(cfg.name) && ValidInterface(isIP, cfg.iface) && 1 <= cfg.port <= 65535)
      && (err == None ==> after == cfg.(kind := blank.kind, i2cp := Extracted(I2CP, opts)))
  {
    hide Atoi, Itoa, Extracted, TrimSpace;
    AtoiItoa(cfg.port);
    assert map[] + Extracted(I2CP, opts) == Extracted(I2CP, opts);
  }

  lemma ApplyPrinted(isIP: string -> bool, cfg: TunnelConfig, opts: Options, blank: TunnelConfig)
    requires "name" in opts && opts["name"] == cfg.name
    requires "interface" in opts && opts["interface"] == cfg.iface
    requires "port" in opts && opts["port"] == Itoa(cfg.port)
    requires blank.i2cp == map[] && Faithful(I2CP)
    requires Extracted(I2CP, opts) == NonEmpty(Shown(cfg.i2cp))
    ensures var Applied(after, err) := ApplyCommon(isIP, opts, blank);
      (err == None && after == cfg.(kind := blank.kind)) <==> Printable(isIP, cfg)
  {
    ApplyCore(isIP, cfg, opts, blank);
    ShownAgain(cfg.i2cp);
  }

  /**
   Printing a configuration and applying the result to one without I2CP entries succeeds and
   restores name, interface, port and the whole I2CP map if and only if it is printable.
   */
  lemma PrintThenApply(isIP: string -> bool, cfg: TunnelConfig, blank: TunnelConfig)
    requires blank.i2cp == map[]
    ensures var Applied(after, err) := ApplyCommon(isIP, Built(cfg), blank);
      (err == None && after == cfg.(kind := blank.kind)) <==> Printable(isIP, cfg)
  {
    I2CPFaithful();
    BuiltEntries(cfg);
    var opts := Built(cfg);
    CoreHas(cfg);
    ApplyPrinted(isIP, cfg, opts, blank);
  }

  lemma CoreHas(cfg: TunnelConfig)
    ensures var e := CoreEntries(cfg);
      && "name" in e && e["name"] == cfg.name && "interface" in e && e["interface"] == cfg.iface
      && "port" in e && e["port"] == Itoa(cfg.port) && "type" in e && e["type"] == cfg.kind
  {
  }

  /** No coded entry of `o1` is hidden in `o1 + o2` by an empty value of `o2`, unless `i2cp` has it already. */
  ghost predicate HidesNothing(c: Coding, o1: Options, o2: Options, i2cp: map<string, Value>) {
    forall j :: c.key(j) in o1 && c.key(j) in o2 && o1[c.key(j)] != "" && o2[c.key(j)] == "" ==>
      j in i2cp && i2cp[j] == Str(o1[c.key(j)])
  }

  /** The same for maps whose keys are already decoded. */
  ghost predicate Covers(d1: Options, d2: Options, i2cp: map<string, Value>) {
    forall j :: j in d1 && j in d2 && d1[j] != "" && d2[j] == "" ==> j in i2cp && i2cp[j] == Str(d1[j])
  }

  lemma MergeTwice(d1: Options, d2: Options, i2cp: map<string, Value>)
    ensures (i2cp + NonEmpty(d1)) + NonEmpty(d2) == i2cp + NonEmpty(d1 + d2) <==> Covers(d1, d2, i2cp)
  {
    var twice := (i2cp + NonEmpty(d1)) + NonEmpty(d2);
    var once := i2cp + NonEmpty(d1 + d2);
    if twice == once {
      forall j | j in d1 && j in d2 && d1[j] != "" && d2[j] == ""
        ensures j in i2cp && i2cp[j] == Str(d1[j])
      {
        assert j in NonEmpty(d1) && j !in NonEmpty(d2) && j !in NonEmpty(d1 + d2);
        assert j in twice && twice[j] == Str(d1[j]);
        assert j in once;
      }
    }
    if Covers(d1, d2, i2cp) {
      forall j ensures j in twice <==> j in once {
        assert j in NonEmpty(d1 + d2) <==> j in NonEmpty(d2) || (j in NonEmpty(d1) && j !in d2);
      }
      assert twice.Keys == once.Keys;
    }
  }

  lemma ExtractTwice(c: Coding, o1: Options, o2: Options, i2cp: map<string, Value>)
    requires Faithful(c)
    ensures (i2cp + Extracted(c, o1)) + Extracted(c, o2) == i2cp + Extracted(c, o1 + o2)
      <==> HidesNothing(c, o1, o2, i2cp)
  {
    var d1, d2 := Decoded(c, o1), Decoded(c, o2);
    DecodedOver(c, o1, o2, d1, d2);
    DecodedUnique(c, o1 + o2, Decoded(c, o1 + o2), d1 + d2);
    MergeTwice(d1, d2, i2cp);
    HidesDecoded(c, o1, o2, d1, d2, i2cp);
  }

  lemma HidesDecoded(c: Coding, o1: Options, o2: Options, d1: Options, d2: Options, i2cp: map<string, Value>)
    requires IsDecoded(c, o1, d1) && IsDecoded(c, o2, d2)
    ensures HidesNothing(c, o1, o2, i2cp) <==> Covers(d1, d2, i2cp)
  {
    forall j ensures c.key(j) in o1 <==> j in d1 {
    }
  }

  /**
   Two successful applies in a row and one apply of the overridden map both succeed, and leave
   the same configuration if and only if no empty value in `o2` hides an entry of `o1`.
   */
  lemma ApplyTwice(isIP: string -> bool, o1: Options, o2: Options, cfg: TunnelConfig)
    requires ApplyCommon(isIP, o1, cfg).error == None
    requires ApplyCommon(isIP, o2, ApplyCommon(isIP, o1, cfg).config).error == None
    ensures ApplyCommon(isIP, o1 + o2, cfg).error == None
    ensures ApplyCommon(isIP, o2, ApplyCommon(isIP, o1, cfg).config).config == ApplyCommon(isIP, o1 + o2, cfg).config
      <==> HidesNothing(I2CP, o1, o2, cfg.i2cp)
  {
    hide Extracted, HidesNothing, TrimSpace, PortString;
    I2CPFaithful();
    var first := Overlay(o1, cfg);
    OverlayTwice(o1, o2, cfg);
    ExtractTwice(I2CP, o1, o2, cfg.i2cp);
  }

  ghost function Pick<V>(m: map<string, V>, k: string, other: V): V {
    if k in m then m[k] else other
  }

  lemma PickTwice<V>(m1: map<string, V>, m2: map<string, V>, k: string, other: V)
    ensures Pick(m1 + m2, k, other) == Pick(m2, k, Pick(m1, k, other))
  {
  }

  ghost function PickPort(opts: Options, other: int): int
    requires PortOk(opts)
  {
    if "port" in opts then PortString(opts["port"]).value else other
  }

  lemma PickPortTwice(o1: Options, o2: Options, other: int)
    requires PortOk(o1) && PortOk(o2)
    ensures PortOk(o1 + o2) && PickPort(o1 + o2, other) == PickPort(o2, PickPort(o1, other))
  {
  }

  lemma OverlayFields(opts: Options, cfg: TunnelConfig)
    requires PortOk(opts) && Faithful(I2CP)
    ensures Overlay(opts, cfg) == TunnelConfig(Pick(opts, "name", cfg.name), cfg.kind,
      Pick(opts, "interface", cfg.iface), PickPort(opts, cfg.port), cfg.i2cp + Extracted(I2CP, opts))
  {
  }

  lemma OverlayTwice(o1: Options, o2: Options, cfg: TunnelConfig)
    requires PortOk(o1) && PortOk(o2) && Faithful(I2CP)
    ensures PortOk(o1 + o2)
    ensures Overlay(o1 + o2, cfg) == Overlay(o2, Overlay(o1, cfg)).(i2cp := cfg.i2cp + Extracted(I2CP, o1 + o2))
    ensures Overlay(o2, Overlay(o1, cfg)).i2cp == (cfg.i2cp + Extracted(I2CP, o1)) + Extracted(I2CP, o2)
  {
    PickTwice(o1, o2, "name", cfg.name);
    PickTwice(o1, o2, "interface", cfg.iface);
    PickPortTwice(o1, o2, cfg.port);
    OverlayFields(o1, cfg);
    OverlayFields(o2, Overlay(o1, cfg));
    OverlayFields(o1 + o2, cfg);
  }
}
