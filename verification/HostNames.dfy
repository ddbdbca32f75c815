/**
 Host names and host:port addresses of the HTTP client (lib/http/client/jump.go,
 lib/http/client/outproxy.go), with Go's net.SplitHostPort and net.JoinHostPort.
 */
module HostNames {
  import opened Wrappers
  import opened Text

  function StripPort(host: string): string {
    var i := LastIndexOf(host, ':');
    if i >= 0 then host[..i] else host
  }

  predicate IsI2PAddress(host: string) {
    var h := StripPort(host);
    h != "" && HasSuffix(ToLower(h), ".i2p")
  }

  predicate NeedsJump(host: string) {
    var h := StripPort(host);
    h != "" && HasSuffix(ToLower(h), ".i2p") && !HasSuffix(ToLower(h), ".b32.i2p")
  }

  /** net.SplitHostPort; None stands for its error. */
  function SplitHostPort(addr: string): Option<(string, string)> {
    var i := LastIndexOf(addr, ':');
    if i < 0 then None
    else if addr[0] == '[' then
      var end := IndexOf(addr, ']');
      if end < 0 || end + 1 != i then None
      else if '[' in addr[1..] || ']' in addr[end + 1..] then None
      else Some((addr[1..end], addr[i + 1..]))
    else
      if ':' in addr[..i] || '[' in addr || ']' in addr then None
      else Some((addr[..i], addr[i + 1..]))
  }

  /** net.JoinHostPort: a host with colons is put in brackets. */
  function JoinHostPort(host: string, port: string): string {
    if ':' in host then "[" + host + "]:" + port else host + ":" + port
  }

  lemma StripOf(host: string, port: string)
    requires ':' !in port
    ensures StripPort(host + ":" + port) == host
  {
    LastIndexUnique(host, ':', port);
  }

  lemma StripNoColon(host: string)
    requires ':' !in host
    ensures StripPort(host) == host
  {
  }

  // ---------- hosts up to letter case and port ----------

  /** The same character, or the same ASCII letter in the other case. */
  predicate SameLetter(x: char, y: char) {
    || x == y
    || ('A' <= x <= 'Z' && y as int == x as int + 32)
    || ('A' <= y <= 'Z' && x as int == y as int + 32)
  }

  predicate SameLetters(a: string, b: string) {
    |a| == |b| && forall i :: 0 <= i < |a| ==> SameLetter(a[i], b[i])
  }

  /** `h` is the host part of `name`: all of it, or what stands before its last colon. */
  ghost predicate HasHost(name: string, h: string) {
    (':' !in name && h == name) || exists p :: ':' !in p && name == h + ":" + p
  }

  /** The names agree up to letter case and port. */
  ghost predicate SameHost(a: string, b: string) {
    exists h, k :: HasHost(a, h) && HasHost(b, k) && SameLetters(h, k)
  }

  lemma LowerAgrees(a: string, b: string)
    ensures ToLower(a) == ToLower(b) <==> SameLetters(a, b)
  {
    var x, y := ToLower(a), ToLower(b);
    if x == y {
      forall i | 0 <= i < |a| ensures SameLetter(a[i], b[i]) {
        assert x[i] == y[i];
      }
    }
  }

  lemma StripIsHost(name: string, h: string)
    ensures HasHost(name, h) <==> h == StripPort(name)
  {
    hide LastIndexOf;
    var i := LastIndexOf(name, ':');
    if i >= 0 {
      var port := name[i + 1..];
      assert ':' !in port && name == StripPort(name) + ":" + port;
    }
    if p :| ':' !in p && name == h + ":" + p {
      StripOf(h, p);
    }
  }

  /** Cutting the port off and lowering the letters identifies exactly the names that agree up to case and port. */
  lemma LoweredHosts(a: string, b: string)
    ensures ToLower(StripPort(a)) == ToLower(StripPort(b)) <==> SameHost(a, b)
  {
    hide ToLower, StripPort, SameLetters, HasHost;
    StripIsHost(a, StripPort(a));
    StripIsHost(b, StripPort(b));
    LowerAgrees(StripPort(a), StripPort(b));
    if SameHost(a, b) {
      var h, k :| HasHost(a, h) && HasHost(b, k) && SameLetters(h, k);
      StripIsHost(a, h);
      StripIsHost(b, k);
    }
  }

  /** `h` ends in `suffix`, up to letter case. */
  ghost predicate EndsIn(h: string, suffix: string) {
    exists p :: SameLetters(h, p + suffix)
  }

  lemma SuffixUpToCase(h: string, suffix: string)
    requires ToLower(suffix) == suffix
    ensures HasSuffix(ToLower(h), suffix) <==> EndsIn(h, suffix)
  {
    hide ToLower, SameLetters;
    var x := ToLower(h);
    if HasSuffix(x, suffix) {
      var p := x[..|x| - |suffix|];
      assert x == p + suffix;
      LowerTwice(h);
      LowerAgrees(h, p + suffix);
    }
    if p :| SameLetters(h, p + suffix) {
      LowerAgrees(h, p + suffix);
      LowerConcat(p, suffix);
      assert (ToLower(p) + suffix)[|p|..] == suffix;
    }
  }

  lemma LowerTwice(s: string)
    ensures ToLower(ToLower(s)) == ToLower(s)
  {
  }

  lemma LowerConcat(a: string, b: string)
    ensures ToLower(a + b) == ToLower(a) + ToLower(b)
  {
  }

  lemma LowerSuffixes()
    ensures ToLower(".i2p") == ".i2p" && ToLower(".b32.i2p") == ".b32.i2p"
  {
  }

  /**
   An I2P address is a name whose host part ends in ".i2p" in any case; a jump lookup is for those that do not
   end in ".b32.i2p".
   */
  lemma I2PNames(name: string, h: string)
    requires HasHost(name, h)
    ensures IsI2PAddress(name) <==> EndsIn(h, ".i2p")
    ensures NeedsJump(name) <==> EndsIn(h, ".i2p") && !EndsIn(h, ".b32.i2p")
  {
    hide ToLower, StripPort, HasSuffix, EndsIn, HasHost;
    StripIsHost(name, h);
    LowerSuffixes();
    SuffixUpToCase(h, ".i2p");
    SuffixUpToCase(h, ".b32.i2p");
    if h == "" {
      NothingEndsIn();
    }
  }

  lemma NothingEndsIn()
    ensures !EndsIn("", ".i2p")
  {
  }

  // ---------- host and port together ----------

  predicate NoBrackets(s: string) {
    '[' !in s && ']' !in s
  }

  /** What SplitHostPort returns holds no brackets, and the port no colon. */
  lemma SplitParts(addr: string)
    ensures var hp := SplitHostPort(addr);
      hp.Some? ==> NoBrackets(hp.value.0) && NoBrackets(hp.value.1) && ':' !in hp.value.1
  {
    hide LastIndexOf, IndexOf;
  }

  /** Splitting what JoinHostPort made gives host and port back exactly for hosts without brackets. */
  lemma SplitJoined(host: string, port: string)
    requires ':' !in port && NoBrackets(port)
    ensures SplitHostPort(JoinHostPort(host, port)) == Some((host, port)) <==> NoBrackets(host)
  {
    hide SplitHostPort;
    SplitParts(JoinHostPort(host, port));
    if NoBrackets(host) {
      if ':' in host {
        SplitBracketed(host, port);
      } else {
        SplitPlain(host, port);
      }
    }
  }

  lemma SplitBracketed(host: string, port: string)
    requires '[' !in host && ']' !in host && ':' !in port && '[' !in port && ']' !in port
    ensures SplitHostPort("[" + host + "]:" + port) == Some((host, port))
  {
    hide LastIndexOf, IndexOf;
    var front, addr := "[" + host + "]", "[" + host + "]:" + port;
    assert addr == front + [':'] + port;
    LastIndexUnique(front, ':', port);
    assert addr == ("[" + host) + [']'] + (":" + port);
    IndexUnique("[" + host, ']', ":" + port);
    assert addr[1..|host| + 1] == host && addr[|host| + 3..] == port;
    assert addr[|host| + 2..] == ":" + port;
    assert addr[1..] == host + "]:" + port;
  }

  lemma SplitPlain(host: string, port: string)
    requires '[' !in host && ']' !in host && ':' !in host && ':' !in port && '[' !in port && ']' !in port
    ensures SplitHostPort(host + ":" + port) == Some((host, port))
  {
    hide LastIndexOf, IndexOf;
    var addr := host + ":" + port;
    assert addr == host + [':'] + port;
    LastIndexUnique(host, ':', port);
    assert addr[..|host|] == host && addr[|host| + 1..] == port;
  }
}
