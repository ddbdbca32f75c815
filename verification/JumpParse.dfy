/**
 Reading an I2P destination out of a jump service's answer (lib/http/client/jump.go). A body is the
 text that the limited reader delivers.
 */
module JumpParse {
  import opened Wrappers
  import opened Text
  import opened TextLines
  import opened HostNames

  const MIN_DESTINATION := 516

  predicate IsBase64Char(c: char) {
    || 'A' <= c <= 'Z' || 'a' <= c <= 'z' || '0' <= c <= '9'
    || c == '+' || c == '/' || c == '=' || c == '-' || c == '~'
  }

  /** The check on a trimmed text. */
  predicate LooksLikeDestination(s: string) {
    |s| >= MIN_DESTINATION && HasSuffix(s, "AAAA") && forall i :: 0 <= i < |s| ==> IsBase64Char(s[i])
  }

  predicate IsI2PDestination(text: string) {
    LooksLikeDestination(TrimSpace(text))
  }

  /** The first line that is a destination, trimmed; "" when there is none. */
  method ScanLinesForDestination(body: string) returns (dest: string)
    ensures dest == Scan(Split(body, '\n'))
  {
    hide TrimSpace, LooksLikeDestination, Split;
    var lines := Split(body, '\n');
    var i := 0;
    while i < |lines|
      invariant i <= |lines|
      invariant Scan(lines) == Scan(lines[i..])
    {
      ScanStep(lines, i);
      var line := TrimSpace(lines[i]);
      if IsI2PDestination(line) {
        return line;
      }
      i := i + 1;
    }
    return "";
  }

  function Scan(lines: seq<string>): string {
    if lines == [] then ""
    else if IsI2PDestination(lines[0]) then TrimSpace(lines[0])
    else Scan(lines[1..])
  }

  lemma ScanStep(lines: seq<string>, i: nat)
    requires i < |lines|
    ensures IsI2PDestination(TrimSpace(lines[i])) <==> IsI2PDestination(lines[i])
    ensures Scan(lines[i..]) == if IsI2PDestination(lines[i]) then TrimSpace(lines[i]) else Scan(lines[i + 1..])
  {
    TrimSpaceIdempotent(lines[i]);
    assert lines[i..][1..] == lines[i + 1..];
  }

  /** What strings.SplitN(body, "=", 2) leaves after the first '='. */
  function AfterEquals(body: string): Option<string> {
    var i := IndexOf(body, '=');
    if i < 0 then None else Some(TrimSpace(body[i + 1..]))
  }

  /** parseDestinationFromBody; its hostname argument is not used. */
  function ParseDestinationFromBody(raw: string): string {
    var body := TrimSpace(raw);
    var tail := AfterEquals(body);
    if tail.Some? && IsI2PDestination(tail.value) then tail.value
    else if IsI2PDestination(body) then body
    else Scan(Split(body, '\n'))
  }

  // ---------- destinations and lines ----------

  lemma Base64IsNotSpace(c: char)
    ensures IsBase64Char(c) ==> !IsSpace(c)
  {
  }

  lemma DestinationHasNoSpace(d: string)
    requires LooksLikeDestination(d)
    ensures forall i :: 0 <= i < |d| ==> !IsSpace(d[i])
  {
    forall i | 0 <= i < |d| ensures !IsSpace(d[i]) {
      Base64IsNotSpace(d[i]);
    }
  }

  /** Some line of `body` is a destination, up to the space around it. */
  ghost predicate HasDestinationLine(body: string) {
    exists k :: 0 <= k < |Split(body, '\n')| && IsI2PDestination(Split(body, '\n')[k])
  }

  lemma {:induction false} ScanFinds(lines: seq<string>) returns (k: nat)
    ensures Scan(lines) == "" ==> forall i :: 0 <= i < |lines| ==> !IsI2PDestination(lines[i])
    ensures Scan(lines) != "" ==>
      k < |lines| && IsI2PDestination(lines[k]) && Scan(lines) == TrimSpace(lines[k])
  {
    k := 0;
    if lines != [] && !IsI2PDestination(lines[0]) {
      k := ScanFinds(lines[1..]);
      assert forall i :: 0 < i < |lines| ==> lines[i] == lines[1..][i - 1];
      k := k + 1;
    }
  }

  // ---------- properties ----------

  /** `d` is `s[i..j]` for some `i` and `j`. */
  ghost predicate Piece(d: string, s: string) {
    exists i, j :: 0 <= i <= j <= |s| && d == s[i..j]
  }

  lemma TrimIsPiece(s: string)
    ensures Piece(TrimSpace(s), s)
  {
    var i, j := TrimIsCut(s);
    assert 0 <= i <= j <= |s| && TrimSpace(s) == s[i..j];
  }

  lemma PieceOfPiece(a: string, b: string, c: string)
    requires Piece(a, b) && Piece(b, c)
    ensures Piece(a, c)
  {
    var i, j :| 0 <= i <= j <= |b| && a == b[i..j];
    var k, l :| 0 <= k <= l <= |c| && b == c[k..l];
    Slice(c, k, l, i, j);
    assert a == c[k + i..k + j];
  }

  lemma TailIsPiece(body: string)
    ensures AfterEquals(body).Some? ==> Piece(AfterEquals(body).value, body)
  {
    hide TrimSpace, IndexOf;
    var e := IndexOf(body, '=');
    if e >= 0 {
      var tail := body[e + 1..];
      TrimIsPiece(tail);
      assert tail == body[e + 1..|body|];
      PieceOfPiece(TrimSpace(tail), tail, body);
    }
  }

  lemma ScanIsPiece(body: string)
    ensures var d := Scan(Split(body, '\n')); d != "" ==> Piece(d, body) && LooksLikeDestination(d)
  {
    var lines := Split(body, '\n');
    var k := ScanFinds(lines);
    if Scan(lines) != "" {
      var i, j := SplitIsLine(body, k);
      TrimIsPiece(lines[k]);
      PieceOfPiece(TrimSpace(lines[k]), lines[k], body);
    }
  }

  /** The answer is "" or a whitespace-free contiguous piece of the body that passes the destination check. */
  lemma AnswerIsADestination(raw: string)
    ensures var d := ParseDestinationFromBody(raw);
      d != "" ==> IsI2PDestination(d) && Piece(d, raw) && forall i :: 0 <= i < |d| ==> !IsSpace(d[i])
  {
    hide TrimSpace, LooksLikeDestination, AfterEquals, Split;
    var body, d := TrimSpace(raw), ParseDestinationFromBody(raw);
    if d != "" {
      TrimIsPiece(raw);
      TailIsPiece(body);
      ScanIsPiece(body);
      assert Piece(body, body) by {
        assert body == body[0..|body|];
      }
      PieceOfPiece(d, body, raw);
      CheckedIsTrimmed(raw);
      DestinationHasNoSpace(d);
    }
  }

  /** Whichever way the answer was found, it is trimmed and passes the check as it stands. */
  lemma CheckedIsTrimmed(raw: string)
    ensures var d := ParseDestinationFromBody(raw); d != "" ==> LooksLikeDestination(d) && TrimSpace(d) == d
  {
    hide TrimSpace, LooksLikeDestination, AfterEquals;
    var body := TrimSpace(raw);
    TrimSpaceIdempotent(raw);
    ScanIsPiece(body);
    ScanIsTrimmed(Split(body, '\n'));
    TailIsTrimmed(body);
  }

  lemma TailIsTrimmed(body: string)
    ensures AfterEquals(body).Some? ==> TrimSpace(AfterEquals(body).value) == AfterEquals(body).value
  {
    hide TrimSpace;
    if AfterEquals(body).Some? {
      TrimSpaceIdempotent(body[IndexOf(body, '=') + 1..]);
    }
  }

  lemma {:induction false} ScanIsTrimmed(lines: seq<string>)
    ensures TrimSpace(Scan(lines)) == Scan(lines)
  {
    if lines != [] {
      TrimSpaceIdempotent(lines[0]);
      ScanIsTrimmed(lines[1..]);
    }
  }

  /** Trimming the body loses no destination line, and adds none. */
  lemma TrimKeepsLines(raw: string)
    ensures HasDestinationLine(raw) <==> HasDestinationLine(TrimSpace(raw))
  {
    if HasDestinationLine(raw) {
      var k :| 0 <= k < |Split(raw, '\n')| && IsI2PDestination(Split(raw, '\n')[k]);
      var m := LineInTrimmed(raw, k);
    }
    if HasDestinationLine(TrimSpace(raw)) {
      var k :| 0 <= k < |Split(TrimSpace(raw), '\n')| && IsI2PDestination(Split(TrimSpace(raw), '\n')[k]);
      var m := LineInRaw(raw, k);
    }
  }

  lemma LineInTrimmed(raw: string, k: nat) returns (m: nat)
    requires k < |Split(raw, '\n')| && IsI2PDestination(Split(raw, '\n')[k])
    ensures m < |Split(TrimSpace(raw), '\n')| && IsI2PDestination(Split(TrimSpace(raw), '\n')[m])
  {
    var from, to := TrimIsCut(raw);
    var i, j := SplitIsLine(raw, k);
    var a, b := TrimIsCut(raw[i..j]);
    var p, q, c, d := LineSurvivesCut(Space(), raw, from, to, i, j, a, b);
    m := LineIsSplit(raw[from..to], p, q);
    CutIsTrim(raw[from..to][p..q], c, d);
  }

  lemma LineInRaw(raw: string, k: nat) returns (m: nat)
    requires k < |Split(TrimSpace(raw), '\n')| && IsI2PDestination(Split(TrimSpace(raw), '\n')[k])
    ensures m < |Split(raw, '\n')| && IsI2PDestination(Split(raw, '\n')[m])
  {
    hide TrimSpace, Split;
    var from, to := TrimIsCut(raw);
    var p, q := SplitIsLine(raw[from..to], k);
    var c, d := TrimIsCut(raw[from..to][p..q]);
    var i, j, a, b := LineBeforeCut(Space(), raw, from, to, p, q, c, d);
    m := LineIsSplit(raw, i, j);
    CutIsTrim(raw[i..j], a, b);
  }

  /**
   No destination is overlooked: the answer is "" exactly when no line of the body is a destination
   and what follows the first '=' is none either.
   */
  lemma EmptyExactlyWhen(raw: string)
    ensures ParseDestinationFromBody(raw) == "" <==>
      && !HasDestinationLine(raw)
      && (AfterEquals(TrimSpace(raw)).Some? ==> !IsI2PDestination(AfterEquals(TrimSpace(raw)).value))
  {
    WholeBodyCheckIsSubsumed(raw);
    var k := ScanFinds(Split(TrimSpace(raw), '\n'));
    TrimKeepsLines(raw);
    var tail := AfterEquals(TrimSpace(raw));
    if tail.Some? && IsI2PDestination(tail.value) {
      assert tail.value != "";
    }
  }

  /** A body that is a destination as a whole has one line, which is that destination. */
  lemma WholeBodyIsALine(body: string)
    requires TrimSpace(body) == body && LooksLikeDestination(body)
    ensures Scan(Split(body, '\n')) == body
  {
    hide TrimSpace, LooksLikeDestination;
    DestinationHasNoSpace(body);
    forall k | 0 <= k < |body| ensures body[k] != '\n' {
      assert !IsSpace(body[k]);
    }
    assert Split(body, '\n') == [body];
  }

  /** The check of the whole body adds nothing to the scan of its lines. */
  lemma WholeBodyCheckIsSubsumed(raw: string)
    ensures var body := TrimSpace(raw);
      ParseDestinationFromBody(raw) ==
        if AfterEquals(body).Some? && IsI2PDestination(AfterEquals(body).value) then AfterEquals(body).value
        else Scan(Split(body, '\n'))
  {
    hide TrimSpace, LooksLikeDestination, AfterEquals, Split;
    TrimSpaceIdempotent(raw);
    if IsI2PDestination(TrimSpace(raw)) {
      WholeBodyIsALine(TrimSpace(raw));
    }
  }

  /** "hostname=destination" gives the destination, for every hostname without '=', blank or not. */
  lemma NamedDestination(host: string, d: string)
    requires '=' !in host && IsI2PDestination(d) && TrimSpace(d) == d
    ensures ParseDestinationFromBody(host + "=" + d) == d
  {
    hide TrimSpace, AfterEquals, ParseDestinationFromBody;
    var raw := host + "=" + d;
    DestinationHasNoSpace(d);
    var l := NamedTrim(host, d);
    NamedTail(TrimSpace(raw), l, d);
    TailWins(raw, d);
  }

  lemma TailWins(raw: string, d: string)
    requires AfterEquals(TrimSpace(raw)) == Some(d) && IsI2PDestination(d)
    ensures ParseDestinationFromBody(raw) == d
  {
    hide TrimSpace, AfterEquals, IsI2PDestination;
  }

  lemma NotSpaceEquals()
    ensures !IsSpace('=')
  {
  }

  lemma NamedTrim(host: string, d: string) returns (l: string)
    requires '=' !in host && Trimmed(d) && d != ""
    ensures '=' !in l && TrimSpace(host + "=" + d) == l + "=" + d
  {
    hide TrimSpace, TrimLeft, IsSpace;
    l := TrimLeft(host);
    assert !IsSpace('=') by {
      NotSpaceEquals();
    }
    var raw, n := host + "=" + d, |host| - |l|;
    assert Cut(Space(), raw, n, |raw|) by {
      assert forall k :: 0 <= k < n ==> raw[k] == host[k];
      assert raw[n] == if l == "" then '=' else l[0];
      assert raw[|raw| - 1] == d[|d| - 1];
    }
    CutIsTrim(raw, n, |raw|);
    assert raw[n..] == l + "=" + d;
  }

  lemma NamedTail(m: string, l: string, d: string)
    requires '=' !in l && m == l + "=" + d && TrimSpace(d) == d
    ensures AfterEquals(m) == Some(d)
  {
    hide TrimSpace, IndexOf;
    IndexUnique(l, '=', d);
    assert m == l + ['='] + d;
    assert m[|l| + 1..] == d;
  }

  /** A bare destination comes back whole unless what follows its first '=' is a destination itself. */
  lemma BareDestination(d: string)
    requires IsI2PDestination(d) && TrimSpace(d) == d
    ensures ParseDestinationFromBody(d) == d
      <==> !(AfterEquals(d).Some? && IsI2PDestination(AfterEquals(d).value))
  {
    hide TrimSpace, AfterEquals, Scan, Split;
    TailIsShorter(d);
  }

  /** `n` characters 'A'. */
  function As(n: nat): (s: string)
    ensures |s| == n && forall i :: 0 <= i < n ==> s[i] == 'A'
  {
    seq(n, _ => 'A')
  }

  lemma AsDestination(n: nat)
    requires n >= MIN_DESTINATION
    ensures IsI2PDestination(As(n)) && TrimSpace(As(n)) == As(n)
    ensures IsI2PDestination("=" + As(n)) && TrimSpace("=" + As(n)) == "=" + As(n)
  {
    hide TrimSpace, As;
    var d, e := As(n), "=" + As(n);
    assert d[n - 4..] == "AAAA" && e[n + 1 - 4..] == "AAAA";
    NotSpaceEquals();
    assert IsSpace('A') == false;
    TrimTrimmed(d);
    TrimTrimmed(e);
  }

  /** Such destinations exist: an '=' before 516 or more 'A's is cut off, though the whole is a destination. */
  lemma BareDestinationIsCut(n: nat)
    requires n >= MIN_DESTINATION
    ensures IsI2PDestination("=" + As(n)) && TrimSpace("=" + As(n)) == "=" + As(n)
    ensures ParseDestinationFromBody("=" + As(n)) == As(n) != "=" + As(n)
  {
    hide TrimSpace, ParseDestinationFromBody, IsI2PDestination, As;
    AsDestination(n);
    NamedDestination("", As(n));
    assert "" + "=" + As(n) == "=" + As(n);
  }

  lemma TailIsShorter(d: string)
    ensures AfterEquals(d).Some? ==> |AfterEquals(d).value| < |d|
  {
  }

  // ---------- the whole answer ----------

  datatype Response = Response(status: int, location: string, body: string)

  /** The host part of a redirect's URL. */
  function ExtractHostFromURL(url: string): string {
    var scheme := FindScheme(url);
    var rest := if scheme >= 0 then url[scheme + 3..] else url;
    var slash := IndexOf(rest, '/');
    StripPort(if slash >= 0 then rest[..slash] else rest)
  }

  /** strings.Index(url, "://"). */
  function FindScheme(url: string): (i: int)
    ensures i == -1 || (0 <= i && i + 3 <= |url| && url[i..i + 3] == "://")
  {
    if |url| < 3 then -1
    else if url[..3] == "://" then 0
    else
      var i := FindScheme(url[1..]);
      if i < 0 then -1 else i + 1
  }

  /** parseJumpResponse; None stands for its error. */
  function ParseJumpResponse(r: Response): Option<string> {
    if r.status == 302 || r.status == 301 then
      var dest := if r.location == "" then "" else ExtractHostFromURL(r.location);
      if dest == "" then None else Some(dest)
    else if r.status == 200 then
      var dest := ParseDestinationFromBody(r.body);
      if dest == "" then None else Some(dest)
    else None
  }

  /** An answer is never empty, and one that is not a redirect is a destination found in the body. */
  lemma AnswersAreUsable(r: Response)
    ensures ParseJumpResponse(r).Some? ==> ParseJumpResponse(r).value != ""
    ensures ParseJumpResponse(r).Some? && r.status == 200 ==>
      IsI2PDestination(ParseJumpResponse(r).value) && Piece(ParseJumpResponse(r).value, r.body)
  {
    AnswerIsADestination(r.body);
  }

  /** The digit of value `v`, table 1 of RFC 4648. */
  function Base64Digit(v: nat): char
    requires v < 64
  {
    if v < 26 then (v + 'A' as int) as char
    else if v < 52 then (v - 26 + 'a' as int) as char
    else if v < 62 then (v - 52 + '0' as int) as char
    else if v == 62 then '+'
    else '/'
  }

  /** A destination may hold the base64 digits, those that I2P puts for the last two, and the padding. */
  lemma Base64Alphabet(c: char)
    ensures IsBase64Char(c) <==> c == '-' || c == '~' || c == '=' || exists v: nat :: v < 64 && c == Base64Digit(v)
  {
    if 'A' <= c <= 'Z' {
      assert c == Base64Digit(c as int - 'A' as int);
    } else if 'a' <= c <= 'z' {
      assert c == Base64Digit(26 + (c as int - 'a' as int));
    } else if '0' <= c <= '9' {
      assert c == Base64Digit(52 + (c as int - '0' as int));
    } else if c == '+' || c == '/' {
      assert c == Base64Digit(62) || c == Base64Digit(63);
    }
  }

  /** A text is a destination when, space aside, it has 516 or more such characters and ends in "AAAA". */
  lemma DestinationExactlyWhen(s: string)
    requires Trimmed(s)
    ensures IsI2PDestination(s) <==>
      && |s| >= 516
      && s[|s| - 4] == s[|s| - 3] == s[|s| - 2] == s[|s| - 1] == 'A'
      && forall i :: 0 <= i < |s| ==> IsBase64Char(s[i])
  {
    hide TrimSpace, IsBase64Char;
    TrimTrimmed(s);
    if |s| >= 516 {
      var tail := s[|s| - 4..];
      assert tail[0] == s[|s| - 4] && tail[1] == s[|s| - 3] && tail[2] == s[|s| - 2] && tail[3] == s[|s| - 1];
    }
  }

  /**
   A response with status 200 is accepted exactly when a line of its body, or what follows the first '=' of the
   body, is a destination; one that is neither that nor a redirect is never accepted.
   */
  lemma AcceptedExactlyWhen(r: Response)
    ensures r.status == 200 ==> (
      ParseJumpResponse(r).Some? <==>
        || HasDestinationLine(r.body)
        || (AfterEquals(TrimSpace(r.body)).Some? && IsI2PDestination(AfterEquals(TrimSpace(r.body)).value)))
    ensures r.status != 200 && r.status != 301 && r.status != 302 ==> ParseJumpResponse(r).None?
  {
    hide ParseDestinationFromBody, TrimSpace, AfterEquals, IsI2PDestination, HasDestinationLine;
    EmptyExactlyWhen(r.body);
  }

  lemma {:induction false} SchemeFound(scheme: string, rest: string)
    requires ':' !in scheme
    ensures FindScheme(scheme + "://" + rest) == |scheme|
  {
    var url := scheme + "://" + rest;
    if scheme == "" {
      assert url[..3] == "://";
    } else {
      assert url[0] == scheme[0] != ':';
      assert url[..3][0] == url[0];
      assert url[1..] == scheme[1..] + "://" + rest;
      SchemeFound(scheme[1..], rest);
    }
  }

  /** A redirect answers with the host of its URL, without scheme, port and path, unless that is empty. */
  lemma RedirectAnswersItsHost(r: Response, scheme: string, authority: string, path: string, host: string)
    requires r.status == 301 || r.status == 302
    requires r.location == scheme + "://" + authority + path
    requires ':' !in scheme && '/' !in authority && (path == "" || path[0] == '/') && HasHost(authority, host)
    ensures ParseJumpResponse(r) == if host == "" then None else Some(host)
  {
    hide ExtractHostFromURL, HasHost, ParseDestinationFromBody;
    ExtractedHost(scheme, authority, path);
    StripIsHost(authority, host);
    assert |r.location| >= 3;
  }

  lemma ExtractedHost(scheme: string, authority: string, path: string)
    requires ':' !in scheme && '/' !in authority && (path == "" || path[0] == '/')
    ensures ExtractHostFromURL(scheme + "://" + authority + path) == StripPort(authority)
  {
    hide FindScheme, IndexOf, StripPort;
    var url, rest := scheme + "://" + authority + path, authority + path;
    assert url == scheme + "://" + rest;
    SchemeFound(scheme, rest);
    assert url[|scheme| + 3..] == rest;
    AuthorityEnds(authority, path);
  }

  lemma AuthorityEnds(authority: string, path: string)
    requires '/' !in authority && (path == "" || path[0] == '/')
    ensures var rest := authority + path;
      var slash := IndexOf(rest, '/');
      (if slash >= 0 then rest[..slash] else rest) == authority
  {
    hide IndexOf;
    if path == "" {
      assert authority + path == authority;
    } else {
      assert authority + path == authority + ['/'] + path[1..];
      IndexUnique(authority, '/', path[1..]);
    }
  }
}
