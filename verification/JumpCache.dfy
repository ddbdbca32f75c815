/**
 The TTL cache in front of the jump service (lib/http/client/jump.go). Lookups run concurrently; each
 of their accesses to the cache is one critical section, and the clock moves in between.
 */
module JumpCache {
  import opened Wrappers
  import opened Text
  import opened HostNames
  import opened JumpParse

  const MAX_CACHE_ENTRIES := 1000
  /** One hour, in milliseconds. */
  const DEFAULT_CACHE_TTL := 3_600_000
  const DEFAULT_JUMP_SERVICE_URL := "http://stats.i2p/cgi-bin/jump.cgi"

  datatype Entry = Entry(destination: string, expiresAt: int)

  datatype Cache = Cache(ttl: int, entries: map<string, Entry>)

  function Normalise(hostname: string): string {
    ToLower(StripPort(hostname))
  }

  function Stored(c: Cache, host: string, dest: string, now: int): Cache {
    if c.ttl <= 0 then c
    else
      var kept := if |c.entries| >= MAX_CACHE_ENTRIES then map[] else c.entries;
      c.(entries := kept[host := Entry(dest, now + c.ttl)])
  }

  function Dropped(c: Cache, host: string): Cache {
    c.(entries := c.entries - {host})
  }

  function Found(c: Cache, host: string): Option<Entry> {
    if host in c.entries then Some(c.entries[host]) else None
  }

  /** What the jump service says; None stands for a request that got no response. */
  function Told(r: Option<Response>): Option<string> {
    if r.None? then None else ParseJumpResponse(r.value)
  }

  // ---------- lookups as a step system ----------

  /** `seen` is the number of stores done when the cache was read. */
  datatype Phase =
    | Begun
    | Read(entry: Entry, seen: nat)
    | Stale
    | Asking
    | Answered(dest: string)
    | Hit(hit: string, seen: nat, at: int)
    | Fetched(dest: string)
    | Failed

  datatype Look = Look(hostname: string, phase: Phase)

  datatype Put = Put(host: string, dest: string, at: int, ttl: int)

  /** `puts` and `answers` record what was stored and what the service answered; no step reads them. */
  datatype World = World(cache: Cache, now: int, looks: seq<Look>, puts: seq<Put>, answers: set<(string, string)>)

  datatype Action =
    | Tick(d: nat)
    | SetTTL(ttl: int)
    | Clear
    | Begin(hostname: string)
    | ReadCache(i: nat)
    | CheckTime(i: nat)
    | DeleteExpired(i: nat)
    | Query(i: nat, response: Option<Response>)
    | PutAnswer(i: nat)

  function To(w: World, i: nat, p: Phase): World
    requires i < |w.looks|
  {
    w.(looks := w.looks[i := w.looks[i].(phase := p)])
  }

  function HostOf(w: World, i: nat): string
    requires i < |w.looks|
  {
    Normalise(w.looks[i].hostname)
  }

  function ReadStep(w: World, i: nat): World
    requires i < |w.looks|
  {
    var e := Found(w.cache, HostOf(w, i));
    To(w, i, if e.None? then Asking else Read(e.value, |w.puts|))
  }

  function CheckStep(w: World, i: nat): World
    requires i < |w.looks| && w.looks[i].phase.Read?
  {
    var p := w.looks[i].phase;
    To(w, i, if w.now > p.entry.expiresAt then Stale else Hit(p.entry.destination, p.seen, w.now))
  }

  function QueryStep(w: World, i: nat, response: Option<Response>): World
    requires i < |w.looks|
  {
    var d := Told(response);
    if d.None? then To(w, i, Failed)
    else To(w, i, Answered(d.value)).(answers := w.answers + {(HostOf(w, i), d.value)})
  }

  function PutStep(w: World, i: nat): World
    requires i < |w.looks| && w.looks[i].phase.Answered?
  {
    var host, dest := HostOf(w, i), w.looks[i].phase.dest;
    To(w, i, Fetched(dest)).(
      cache := Stored(w.cache, host, dest, w.now),
      puts := if w.cache.ttl <= 0 then w.puts else w.puts + [Put(host, dest, w.now, w.cache.ttl)])
  }

  /** One step; a step that does not apply leaves the world as it is. */
  function Next(w: World, a: Action): World {
    match a
    case Tick(d) => w.(now := w.now + d)
    case SetTTL(ttl) => w.(cache := w.cache.(ttl := ttl))
    case Clear => w.(cache := w.cache.(entries := map[]))
    case Begin(hostname) => w.(looks := w.looks + [Look(hostname, Begun)])
    case ReadCache(i) => if i < |w.looks| && w.looks[i].phase.Begun? then ReadStep(w, i) else w
    case CheckTime(i) => if i < |w.looks| && w.looks[i].phase.Read? then CheckStep(w, i) else w
    case DeleteExpired(i) =>
      if i < |w.looks| && w.looks[i].phase.Stale? then
        To(w, i, Asking).(cache := Dropped(w.cache, HostOf(w, i)))
      else w
    case Query(i, response) => if i < |w.looks| && w.looks[i].phase.Asking? then QueryStep(w, i, response) else w
    case PutAnswer(i) => if i < |w.looks| && w.looks[i].phase.Answered? then PutStep(w, i) else w
  }

  // ---------- the invariant ----------

  /** The last put for `host`. */
  function LastPut(puts: seq<Put>, host: string): (p: Option<Put>)
    ensures p.Some? ==> p.value in puts && p.value.host == host
  {
    if puts == [] then None
    else if puts[|puts| - 1].host == host then Some(puts[|puts| - 1])
    else LastPut(puts[..|puts| - 1], host)
  }

  /** `e` is what the last of the first `seen` puts for `host` stored. */
  predicate IsLastPut(e: Entry, puts: seq<Put>, host: string) {
    var p := LastPut(puts, host);
    p.Some? && e == Entry(p.value.dest, p.value.at + p.value.ttl)
  }

  ghost predicate EntriesOk(w: World) {
    forall h :: h in w.cache.entries ==> IsLastPut(w.cache.entries[h], w.puts, h)
  }

  predicate PutOk(w: World, p: Put) {
    (p.host, p.dest) in w.answers && p.at <= w.now && p.ttl > 0
  }

  ghost predicate PutsOk(w: World) {
    forall k :: 0 <= k < |w.puts| ==> PutOk(w, w.puts[k])
  }

  predicate LookOk(host: string, p: Phase, puts: seq<Put>, answers: set<(string, string)>, now: int) {
    match p
    case Read(entry, seen) => seen <= |puts| && IsLastPut(entry, puts[..seen], host)
    case Answered(dest) => (host, dest) in answers
    case Fetched(dest) => (host, dest) in answers
    case Hit(dest, seen, at) => seen <= |puts| && at <= now && HitOk(dest, puts[..seen], host, at)
    case _ => true
  }

  /** The hit is the last put for the host among those seen, read between that put and its expiry. */
  predicate HitOk(dest: string, seen: seq<Put>, host: string, at: int) {
    var p := LastPut(seen, host);
    p.Some? && p.value.dest == dest && p.value.at <= at <= p.value.at + p.value.ttl
  }

  ghost predicate LooksOk(w: World) {
    forall i :: 0 <= i < |w.looks| ==> LookOk(HostOf(w, i), w.looks[i].phase, w.puts, w.answers, w.now)
  }

  ghost predicate Inv(w: World) {
    && EntriesOk(w) && PutsOk(w) && LooksOk(w)
    && |w.cache.entries| <= MAX_CACHE_ENTRIES
  }

  // ---------- every step keeps it ----------

  lemma LastPutAppend(puts: seq<Put>, p: Put, host: string)
    ensures LastPut(puts + [p], host) == if p.host == host then Some(p) else LastPut(puts, host)
  {
    assert (puts + [p])[..|puts|] == puts;
  }

  lemma PrefixKept(puts: seq<Put>, p: Put, n: nat)
    requires n <= |puts|
    ensures (puts + [p])[..n] == puts[..n]
  {
  }

  /** What a lookup knows stays true when the logs and the clock advance. */
  lemma LookAdvances(w: World, v: World, host: string, p: Phase)
    requires LookOk(host, p, w.puts, w.answers, w.now)
    requires v.puts == w.puts || (|v.puts| == |w.puts| + 1 && v.puts[..|w.puts|] == w.puts)
    requires w.answers <= v.answers && w.now <= v.now
    ensures LookOk(host, p, v.puts, v.answers, v.now)
  {
    if |v.puts| == |w.puts| + 1 {
      var last := v.puts[|w.puts|];
      assert v.puts == w.puts + [last];
      if p.Read? || p.Hit? {
        PrefixKept(w.puts, last, p.seen);
      }
    }
  }

  /** One lookup moved on, the others kept their place. */
  lemma LooksAdvance(w: World, v: World, i: nat)
    requires LooksOk(w) && i < |w.looks|
    requires v.puts == w.puts || (|v.puts| == |w.puts| + 1 && v.puts[..|w.puts|] == w.puts)
    requires w.answers <= v.answers && w.now <= v.now
    requires |v.looks| == |w.looks| && v.looks[i].hostname == w.looks[i].hostname
    requires forall k :: 0 <= k < |w.looks| && k != i ==> v.looks[k] == w.looks[k]
    requires v.looks[i] == w.looks[i] || LookOk(HostOf(w, i), v.looks[i].phase, v.puts, v.answers, v.now)
    ensures LooksOk(v)
  {
    forall k | 0 <= k < |v.looks| ensures LookOk(HostOf(v, k), v.looks[k].phase, v.puts, v.answers, v.now) {
      LookAdvances(w, v, HostOf(w, k), w.looks[k].phase);
    }
  }

  lemma PutsAdvance(w: World, v: World)
    requires PutsOk(w) && w.answers <= v.answers && w.now <= v.now
    requires v.puts == w.puts
      || (|v.puts| == |w.puts| + 1 && v.puts[..|w.puts|] == w.puts && PutOk(v, v.puts[|w.puts|]))
    ensures PutsOk(v)
  {
    forall k | 0 <= k < |v.puts| ensures PutOk(v, v.puts[k]) {
      if k < |w.puts| {
        assert v.puts[k] == w.puts[k];
        assert PutOk(w, w.puts[k]);
      }
    }
  }

  lemma FewerEntries(m: map<string, Entry>, host: string)
    ensures |m - {host}| <= |m|
  {
    assert (m - {host}).Keys <= m.Keys;
    SubsetSize((m - {host}).Keys, m.Keys);
  }

  lemma {:induction false} SubsetSize<T>(a: set<T>, b: set<T>)
    requires a <= b
    ensures |a| <= |b|
  {
    if a != {} {
      var x :| x in a;
      SubsetSize(a - {x}, b - {x});
    }
  }

  lemma OneMoreEntry(m: map<string, Entry>, host: string, e: Entry)
    ensures |m[host := e]| <= |m| + 1
  {
    assert m[host := e].Keys == m.Keys + {host};
  }

  /** A store wipes a full cache first, so the bound holds again. */
  lemma StoredSize(c: Cache, host: string, dest: string, now: int)
    requires |c.entries| <= MAX_CACHE_ENTRIES
    ensures |Stored(c, host, dest, now).entries| <= MAX_CACHE_ENTRIES
  {
    if c.ttl > 0 {
      var kept := if |c.entries| >= MAX_CACHE_ENTRIES then map[] else c.entries;
      OneMoreEntry(kept, host, Entry(dest, now + c.ttl));
    }
  }

  lemma StoredEntries(w: World, v: World, p: Put)
    requires EntriesOk(w) && w.cache.ttl > 0
    requires p == Put(p.host, p.dest, w.now, w.cache.ttl) && v.puts == w.puts + [p]
    requires v.cache == Stored(w.cache, p.host, p.dest, w.now)
    ensures EntriesOk(v)
  {
    forall h | h in v.cache.entries ensures IsLastPut(v.cache.entries[h], v.puts, h) {
      LastPutAppend(w.puts, p, h);
    }
  }

  lemma PutKeeps(w: World, i: nat)
    requires Inv(w) && i < |w.looks| && w.looks[i].phase.Answered?
    ensures Inv(PutStep(w, i))
  {
    hide Normalise, LastPut, PutOk;
    var v := PutStep(w, i);
    var host, dest := HostOf(w, i), w.looks[i].phase.dest;
    StoredSize(w.cache, host, dest, w.now);
    if w.cache.ttl > 0 {
      StoredEntries(w, v, Put(host, dest, w.now, w.cache.ttl));
    }
    StoredPutOk(w, v, i);
    PutsAdvance(w, v);
    LooksAdvance(w, v, i);
  }

  lemma StoredPutOk(w: World, v: World, i: nat)
    requires Inv(w) && i < |w.looks| && w.looks[i].phase.Answered? && v == PutStep(w, i)
    ensures w.cache.ttl > 0 ==> PutOk(v, v.puts[|w.puts|])
    ensures LookOk(HostOf(w, i), v.looks[i].phase, v.puts, v.answers, v.now)
  {
    hide Normalise, LastPut;
    assert LookOk(HostOf(w, i), w.looks[i].phase, w.puts, w.answers, w.now);
  }

  lemma QueryKeeps(w: World, i: nat, response: Option<Response>)
    requires Inv(w) && i < |w.looks|
    ensures Inv(QueryStep(w, i, response))
  {
    hide ParseJumpResponse;
    var v := QueryStep(w, i, response);
    PutsAdvance(w, v);
    LooksAdvance(w, v, i);
  }

  lemma ReadKeeps(w: World, i: nat)
    requires Inv(w) && i < |w.looks|
    ensures Inv(ReadStep(w, i))
  {
    assert w.puts[..|w.puts|] == w.puts;
    LooksAdvance(w, ReadStep(w, i), i);
  }

  /** A hit is taken only while the entry has not expired, and after the put that made it. */
  lemma CheckKeeps(w: World, i: nat)
    requires Inv(w) && i < |w.looks| && w.looks[i].phase.Read?
    ensures Inv(CheckStep(w, i))
  {
    var p := w.looks[i].phase;
    assert LookOk(HostOf(w, i), p, w.puts, w.answers, w.now);
    var put := LastPut(w.puts[..p.seen], HostOf(w, i)).value;
    assert put in w.puts;
    assert PutOk(w, put);
    LooksAdvance(w, CheckStep(w, i), i);
  }

  lemma DeleteKeeps(w: World, i: nat)
    requires Inv(w) && i < |w.looks|
    ensures Inv(To(w, i, Asking).(cache := Dropped(w.cache, HostOf(w, i))))
  {
    hide Normalise, LastPut, IsLastPut, PutOk;
    var v := To(w, i, Asking).(cache := Dropped(w.cache, HostOf(w, i)));
    FewerEntries(w.cache.entries, HostOf(w, i));
    PutsAdvance(w, v);
    LooksAdvance(w, v, i);
  }

  lemma TickKeeps(w: World, d: nat)
    requires Inv(w)
    ensures Inv(w.(now := w.now + d))
  {
    var v := w.(now := w.now + d);
    PutsAdvance(w, v);
    forall k | 0 <= k < |w.looks| ensures LookOk(HostOf(v, k), v.looks[k].phase, v.puts, v.answers, v.now) {
      LookAdvances(w, v, HostOf(w, k), w.looks[k].phase);
    }
  }

  lemma BeginKeeps(w: World, hostname: string)
    requires Inv(w)
    ensures Inv(w.(looks := w.looks + [Look(hostname, Begun)]))
  {
    var v := w.(looks := w.looks + [Look(hostname, Begun)]);
    forall k | 0 <= k < |v.looks| ensures LookOk(HostOf(v, k), v.looks[k].phase, v.puts, v.answers, v.now) {
      if k < |w.looks| {
        assert v.looks[k] == w.looks[k];
        assert LookOk(HostOf(w, k), w.looks[k].phase, w.puts, w.answers, w.now);
      }
    }
  }

  lemma NextKeepsInv(w: World, a: Action)
    requires Inv(w)
    ensures Inv(Next(w, a))
  {
    hide ReadStep, CheckStep, QueryStep, PutStep, Inv, Dropped;
    match a
    case Tick(d) => TickKeeps(w, d);
    case SetTTL(ttl) => InvIgnoresTTL(w, ttl);
    case Clear => InvWhenCleared(w);
    case Begin(hostname) => BeginKeeps(w, hostname);
    case ReadCache(i) => if i < |w.looks| { ReadKeeps(w, i); }
    case CheckTime(i) => if i < |w.looks| && w.looks[i].phase.Read? { CheckKeeps(w, i); }
    case DeleteExpired(i) => if i < |w.looks| { DeleteKeeps(w, i); }
    case Query(i, response) => if i < |w.looks| { QueryKeeps(w, i, response); }
    case PutAnswer(i) => if i < |w.looks| && w.looks[i].phase.Answered? { PutKeeps(w, i); }
  }

  lemma InvIgnoresTTL(w: World, ttl: int)
    requires Inv(w)
    ensures Inv(w.(cache := w.cache.(ttl := ttl)))
  {
    var v := w.(cache := w.cache.(ttl := ttl));
    PutsAdvance(w, v);
    assert EntriesOk(v) by {
      forall h | h in v.cache.entries ensures IsLastPut(v.cache.entries[h], v.puts, h) {
        assert IsLastPut(w.cache.entries[h], w.puts, h);
      }
    }
    forall k | 0 <= k < |w.looks| ensures LookOk(HostOf(v, k), v.looks[k].phase, v.puts, v.answers, v.now) {
      assert LookOk(HostOf(w, k), w.looks[k].phase, w.puts, w.answers, w.now);
    }
  }

  lemma InvWhenCleared(w: World)
    requires Inv(w)
    ensures Inv(w.(cache := w.cache.(entries := map[])))
  {
    var v := w.(cache := w.cache.(entries := map[]));
    PutsAdvance(w, v);
    forall k | 0 <= k < |w.looks| ensures LookOk(HostOf(v, k), v.looks[k].phase, v.puts, v.answers, v.now) {
      assert LookOk(HostOf(w, k), w.looks[k].phase, w.puts, w.answers, w.now);
    }
  }

  // ---------- every run ----------

  function Run(w: World, steps: seq<Action>): World {
    if steps == [] then w else Next(Run(w, steps[..|steps| - 1]), steps[|steps| - 1])
  }

  /** A service as NewJumpService makes it, with any TTL, and no lookup begun. */
  function Fresh(ttl: int, now: int): World {
    World(Cache(ttl, map[]), now, [], [], {})
  }

  lemma {:induction false} RunKeepsInv(w: World, steps: seq<Action>)
    requires Inv(w)
    ensures Inv(Run(w, steps))
  {
    if steps != [] {
      RunKeepsInv(w, steps[..|steps| - 1]);
      NextKeepsInv(Run(w, steps[..|steps| - 1]), steps[|steps| - 1]);
    }
  }

  lemma {:induction false} CacheNeverExceedsItsBound(ttl: int, now: int, steps: seq<Action>)
    ensures |Run(Fresh(ttl, now), steps).cache.entries| <= 1000
  {
    RunKeepsInv(Fresh(ttl, now), steps);
  }

  /** What a lookup has returned, if it has returned a destination. */
  function Returned(l: Look): Option<string> {
    match l.phase
    case Hit(dest, _, _) => Some(dest)
    case Fetched(dest) => Some(dest)
    case _ => None
  }

  /** The query of step `k` made the service answer `dest` for `host`. */
  ghost predicate AnsweredAt(w: World, steps: seq<Action>, k: nat, host: string, dest: string) {
    && k < |steps| && steps[k].Query?
    && Told(steps[k].response) == Some(dest)
    && steps[k].i < |Run(w, steps[..k]).looks| && HostOf(Run(w, steps[..k]), steps[k].i) == host
  }

  lemma AnswerStep(w: World, a: Action, host: string, dest: string)
    requires (host, dest) in Next(w, a).answers && (host, dest) !in w.answers
    ensures a.Query? && Told(a.response) == Some(dest) && a.i < |w.looks| && HostOf(w, a.i) == host
  {
    hide Told, Normalise, Stored;
  }

  /** Every recorded answer comes from a response of the service to a query for that host. */
  lemma {:induction false} AnswersCameFromQueries(w: World, steps: seq<Action>, host: string, dest: string)
    returns (k: nat)
    requires w.answers == {} && (host, dest) in Run(w, steps).answers
    ensures AnsweredAt(w, steps, k, host, dest)
  {
    hide Next, Told, Normalise;
    assert steps != [];
    var n := |steps| - 1;
    var before := steps[..n];
    if (host, dest) in Run(w, before).answers {
      k := AnswersCameFromQueries(w, before, host, dest);
      assert before[..k] == steps[..k];
    } else {
      AnswerStep(Run(w, before), steps[n], host, dest);
      k := n;
    }
  }

  lemma ReturnedIsAnswered(w: World, i: nat)
    requires Inv(w) && i < |w.looks| && Returned(w.looks[i]).Some?
    ensures (HostOf(w, i), Returned(w.looks[i]).value) in w.answers
  {
    hide Normalise;
    assert LookOk(HostOf(w, i), w.looks[i].phase, w.puts, w.answers, w.now);
    match w.looks[i].phase
    case Hit(dest, seen, at) =>
      var put := LastPut(w.puts[..seen], HostOf(w, i)).value;
      assert put in w.puts;
      assert PutOk(w, put);
    case Fetched(dest) =>
  }

  /** The normal form identifies exactly the hostnames that agree up to letter case and port. */
  lemma NormaliseIdentifies(a: string, b: string)
    ensures Normalise(a) == Normalise(b) <==> SameHost(a, b)
    ensures ':' !in a && ':' !in b ==> (Normalise(a) == Normalise(b) <==> SameLetters(a, b))
  {
    hide ToLower, SameHost, SameLetters;
    LoweredHosts(a, b);
    if ':' !in a && ':' !in b {
      StripNoColon(a);
      StripNoColon(b);
      LowerAgrees(a, b);
    }
  }

  lemma NormaliseDropsThePort(host: string, port: string)
    requires ':' !in host && ':' !in port
    ensures Normalise(host + ":" + port) == Normalise(host)
  {
    StripOf(host, port);
    StripNoColon(host);
  }

  /**
   In every interleaving, a returned destination was answered by the service to a query for a hostname that
   agrees with the caller's up to letter case and port.
   */
  lemma ReturnedWasAnswered(ttl: int, now: int, steps: seq<Action>, i: nat) returns (k: nat)
    requires i < |Run(Fresh(ttl, now), steps).looks| && Returned(Run(Fresh(ttl, now), steps).looks[i]).Some?
    ensures var l := Run(Fresh(ttl, now), steps).looks[i];
      && AnsweredAt(Fresh(ttl, now), steps, k, Normalise(l.hostname), Returned(l).value)
      && SameHost(Run(Fresh(ttl, now), steps[..k]).looks[steps[k].i].hostname, l.hostname)
  {
    hide Next, Normalise, Told, SameHost;
    RunKeepsInv(Fresh(ttl, now), steps);
    var w := Run(Fresh(ttl, now), steps);
    ReturnedIsAnswered(w, i);
    k := AnswersCameFromQueries(Fresh(ttl, now), steps, HostOf(w, i), Returned(w.looks[i]).value);
    NormaliseIdentifies(Run(Fresh(ttl, now), steps[..k]).looks[steps[k].i].hostname, w.looks[i].hostname);
  }

  /** It is never empty, and it is an I2P destination when the service did not answer by a redirect. */
  lemma ReturnedIsUsable(ttl: int, now: int, steps: seq<Action>, i: nat) returns (k: nat)
    requires i < |Run(Fresh(ttl, now), steps).looks| && Returned(Run(Fresh(ttl, now), steps).looks[i]).Some?
    ensures k < |steps| && steps[k].Query? && steps[k].response.Some?
    ensures var dest := Returned(Run(Fresh(ttl, now), steps).looks[i]).value;
      dest != "" && (steps[k].response.value.status == 200 ==> IsI2PDestination(dest))
  {
    hide Next, Normalise, ParseJumpResponse, IsI2PDestination;
    k := ReturnedWasAnswered(ttl, now, steps, i);
    AnswersAreUsable(steps[k].response.value);
  }

  /**
   In every interleaving, a hit is the last put for its host among those done when the cache was read,
   and it was taken between that put and the put's time plus the TTL in force then.
   */
  lemma HitIsTheLastPut(ttl: int, now: int, steps: seq<Action>, i: nat)
    ensures var w := Run(Fresh(ttl, now), steps);
      i < |w.looks| && w.looks[i].phase.Hit? ==>
        var l := w.looks[i].phase;
        l.seen <= |w.puts| && l.at <= w.now && HitOk(l.hit, w.puts[..l.seen], HostOf(w, i), l.at)
  {
    hide Next, Normalise, HitOk;
    RunKeepsInv(Fresh(ttl, now), steps);
    var w := Run(Fresh(ttl, now), steps);
    if i < |w.looks| {
      assert LookOk(HostOf(w, i), w.looks[i].phase, w.puts, w.answers, w.now);
    }
  }

  // ---------- one lookup at a time ----------

  /** A lookup that nothing interrupts: it starts at `t` and stores what it fetched at `t'`. */
  function LookupAlone(c: Cache, hostname: string, t: int, response: Option<Response>, t': int):
    (Cache, Option<string>)
  {
    var host := Normalise(hostname);
    var e := Found(c, host);
    if e.Some? && t <= e.value.expiresAt then (c, Some(e.value.destination))
    else
      var left := if e.Some? then Dropped(c, host) else c;
      var dest := Told(response);
      if dest.None? then (left, None) else (Stored(left, host, dest.value, t'), dest)
  }

  /** The steps of one lookup in order; those its branch does not reach leave the world as it is. */
  function LookupSteps(i: nat, hostname: string, response: Option<Response>, d: nat): seq<Action> {
    [Begin(hostname), ReadCache(i), CheckTime(i), DeleteExpired(i), Query(i, response), Tick(d), PutAnswer(i)]
  }

  /** Runs are built from the last step; the first one can be taken off as well. */
  lemma {:induction false} RunFirst(w: World, steps: seq<Action>)
    requires steps != []
    ensures Run(w, steps) == Run(Next(w, steps[0]), steps[1..])
  {
    hide Next;
    if |steps| > 1 {
      var front := steps[..|steps| - 1];
      RunFirst(w, front);
      assert steps[1..][..|steps| - 2] == front[1..];
    } else {
      assert steps[..0] == steps[1..] == [];
    }
  }

  lemma RunFrom(w: World, steps: seq<Action>, k: nat)
    requires k < |steps|
    ensures Run(w, steps[k..]) == Run(Next(w, steps[k]), steps[k + 1..])
  {
    hide Next, Run;
    RunFirst(w, steps[k..]);
    assert steps[k..][1..] == steps[k + 1..];
  }

  /** A lookup that nothing interrupts is a run of the step system. */
  lemma LookupIsARun(w: World, hostname: string, response: Option<Response>, d: nat)
    ensures var v := Run(w, LookupSteps(|w.looks|, hostname, response, d));
      var r := LookupAlone(w.cache, hostname, w.now, response, w.now + d);
      && v.cache == r.0 && v.now == w.now + d
      && |v.looks| == |w.looks| + 1 && Returned(v.looks[|w.looks|]) == r.1
      && (r.1.None? <==> v.looks[|w.looks|].phase.Failed?)
  {
    hide Run, Told, Normalise, Found, Stored;
    var i := |w.looks|;
    var s := LookupSteps(i, hostname, response, d);
    Unrolled(w, s);
    var w1 := Next(w, s[0]);
    assert |w1.looks| == i + 1 && w1.looks[i] == Look(hostname, Begun) && w1.now == w.now && w1.cache == w.cache;
    var w4 := CacheRead(w1, i);
    assert HostOf(w4, i) == Normalise(hostname);
    CacheAsked(w4, i, response, d);
    var v := Next(Next(Next(w4, s[4]), s[5]), s[6]);
    assert v == Run(w, s);
  }

  lemma RunNone(w: World, steps: seq<Action>)
    ensures Run(w, steps[|steps|..]) == w
  {
  }

  lemma Unrolled(w: World, s: seq<Action>)
    requires |s| == 7
    ensures Run(w, s) == Next(Next(Next(Next(Next(Next(Next(w, s[0]), s[1]), s[2]), s[3]), s[4]), s[5]), s[6])
  {
    hide Next, Run;
    var w1 := Next(w, s[0]);
    var w2 := Next(w1, s[1]);
    var w3 := Next(w2, s[2]);
    var w4 := Next(w3, s[3]);
    var w5 := Next(w4, s[4]);
    var w6 := Next(w5, s[5]);
    assert s[0..] == s;
    RunFrom(w, s, 0);
    RunFrom(w1, s, 1);
    RunFrom(w2, s, 2);
    RunFrom(w3, s, 3);
    RunFrom(w4, s, 4);
    RunFrom(w5, s, 5);
    RunFrom(w6, s, 6);
    RunNone(Next(w6, s[6]), s);
  }

  /** The first half of a lookup: it ends as a hit, or having dropped an expired entry. */
  lemma CacheRead(w: World, i: nat) returns (v: World)
    requires i < |w.looks| && w.looks[i].phase.Begun?
    ensures v == Next(Next(Next(w, ReadCache(i)), CheckTime(i)), DeleteExpired(i))
    ensures |v.looks| == |w.looks| && v.now == w.now && v.looks[i].hostname == w.looks[i].hostname
    ensures var e := Found(w.cache, HostOf(w, i));
      if e.Some? && w.now <= e.value.expiresAt then
        v.cache == w.cache && v.looks[i].phase == Hit(e.value.destination, |w.puts|, w.now)
      else
        && v.cache == (if e.Some? then Dropped(w.cache, HostOf(w, i)) else w.cache)
        && v.looks[i].phase == Asking
  {
    hide Normalise, Found;
    v := Next(Next(Next(w, ReadCache(i)), CheckTime(i)), DeleteExpired(i));
  }

  /** The second half: the query and the store. */
  lemma CacheAsked(w: World, i: nat, response: Option<Response>, d: nat)
    requires i < |w.looks| && (w.looks[i].phase.Asking? || w.looks[i].phase.Hit?)
    ensures var v := Next(Next(Next(w, Query(i, response)), Tick(d)), PutAnswer(i));
      var dest := Told(response);
      && |v.looks| == |w.looks| && v.now == w.now + d
      && (if w.looks[i].phase.Hit? then v.cache == w.cache && v.looks[i] == w.looks[i]
          else if dest.None? then v.cache == w.cache && v.looks[i].phase == Failed
          else
            && v.cache == Stored(w.cache, HostOf(w, i), dest.value, w.now + d)
            && v.looks[i].phase == Fetched(dest.value))
  {
    hide Normalise, Told, Stored;
  }

  /**
   A successful lookup is remembered: until the entry expires, looking the host up again, under any
   spelling with the same normal form, gives the same destination and asks nothing of the service.
   */
  lemma SuccessIsRemembered(c: Cache, hostname: string, t: int, response: Option<Response>, t': int,
                            again: string, u: int, other: Option<Response>, u': int)
    requires c.ttl > 0 && LookupAlone(c, hostname, t, response, t').1.Some?
    requires SameHost(again, hostname)
    ensures var (after, dest) := LookupAlone(c, hostname, t, response, t');
      var was, kept := Found(c, Normalise(hostname)), Found(after, Normalise(hostname));
      && kept == (if was.Some? && t <= was.value.expiresAt then was else Some(Entry(dest.value, t' + c.ttl)))
      && (u <= kept.value.expiresAt ==> LookupAlone(after, again, u, other, u') == (after, dest))
  {
    hide Normalise, Told, SameHost;
    NormaliseIdentifies(again, hostname);
  }

  /**
   A lookup leaves for its host the entry it answered with, not expired, or nothing; every other entry
   stays as it was, unless a store found the cache full.
   */
  lemma LookupLeaves(c: Cache, hostname: string, t: int, response: Option<Response>, t': int, other: string)
    requires t <= t'
    ensures var (after, dest) := LookupAlone(c, hostname, t, response, t');
      var e := Found(after, Normalise(hostname));
      && (e.Some? ==> t <= e.value.expiresAt && dest == Some(e.value.destination))
      && (other != Normalise(hostname) ==>
        || Found(after, other) == Found(c, other)
        || (Found(after, other).None? && |c.entries| >= MAX_CACHE_ENTRIES && c.ttl > 0 && dest.Some?))
  {
    hide Normalise, Told;
    FewerEntries(c.entries, Normalise(hostname));
  }

  // ---------- the service ----------

  class JumpService {
    const url: string
    var cacheTTL: int
    var cache: map<string, Entry>

    constructor (url: string)
      ensures View() == Cache(60 * 60 * 1000, map[])
      ensures this.url == if url == "" then DEFAULT_JUMP_SERVICE_URL else url
    {
      this.url := if url == "" then DEFAULT_JUMP_SERVICE_URL else url;
      cacheTTL := DEFAULT_CACHE_TTL;
      cache := map[];
    }

    ghost function View(): Cache
      reads this
    {
      Cache(cacheTTL, cache)
    }

    method SetCacheTTL(ttl: int)
      modifies this
      ensures View() == old(View()).(ttl := ttl)
    {
      cacheTTL := ttl;
    }

    method ClearCache()
      modifies this
      ensures View() == old(View()).(entries := map[])
    {
      cache := map[];
    }

    method GetCached(hostname: string, now: int) returns (dest: Option<string>)
      modifies this
      ensures var e := Found(old(View()), hostname);
        var valid := e.Some? && now <= e.value.expiresAt;
        && dest == (if valid then Some(e.value.destination) else None)
        && View() == (if e.Some? && !valid then Dropped(old(View()), hostname) else old(View()))
    {
      if hostname !in cache {
        return None;
      }
      var entry := cache[hostname];
      if now > entry.expiresAt {
        cache := cache - {hostname};
        return None;
      }
      return Some(entry.destination);
    }

    method PutCache(hostname: string, destination: string, now: int)
      modifies this
      ensures View() == Stored(old(View()), hostname, destination, now)
    {
      if cacheTTL <= 0 {
        return;
      }
      if |cache| >= MAX_CACHE_ENTRIES {
        cache := map[];
      }
      cache := cache[hostname := Entry(destination, now + cacheTTL)];
    }

    /** The response, if any, is what the service sends when it is asked; the clock shows `t`, then `t'`. */
    method Lookup(hostname: string, t: int, response: Option<Response>, t': int) returns (dest: Option<string>)
      modifies this
      ensures (View(), dest) == LookupAlone(old(View()), hostname, t, response, t')
    {
      var host := ToLower(StripPort(hostname));
      dest := GetCached(host, t);
      if dest.Some? {
        return;
      }
      dest := Told(response);
      if dest.Some? {
        PutCache(host, dest.value, t');
      }
    }
  }
}
