/**
 Where a redirect to a tunnel's control page leads (webui/controller/i2p_tunnel_group.go line 176): the
 Location that http.Redirect makes of the unescaped ID, the request that a client makes of the Location, and
 the path that the server reads from the request. Characters outside ASCII are escaped on the way out and
 unescaped on the way in, so they stand for themselves.
 */
module WebRedirect {
  import opened Wrappers
  import opened Text
  import opened WebPaths

  /**
   How a client reads a Location. net/url refuses control characters and takes a backslash as it is; a
   browser escapes control characters and takes a backslash for a slash.
   */
  datatype UserAgent = UserAgent(refusesControls: bool, backslashIsSlash: bool)

  // ---------- pieces of a URL ----------

  /** `s` up to the first `c`. */
  function Before(s: string, c: char): (r: string)
    ensures |r| <= |s| && r == s[..|r|]
    ensures c !in r && (r == s <==> c !in s)
  {
    var i := IndexOf(s, c);
    if i < 0 then s else s[..i]
  }

  /** `s` from the first `c` on. */
  function From(s: string, c: char): (r: string)
    ensures Before(s, c) + r == s
  {
    s[|Before(s, c)|..]
  }

  predicate IsControl(c: char) {
    c as int < 32 || c as int == 127
  }

  predicate NoControl(s: string) {
    forall i :: 0 <= i < |s| ==> !IsControl(s[i])
  }

  function HexValue(c: char): (v: Option<nat>)
    ensures v.Some? ==> v.value < 16
  {
    if '0' <= c <= '9' then Some(c as nat - '0' as nat)
    else if 'a' <= c <= 'f' then Some(c as nat - 'a' as nat + 10)
    else if 'A' <= c <= 'F' then Some(c as nat - 'A' as nat + 10)
    else None
  }

  /** Percent-decoding; None stands for a malformed escape. */
  function Unescape(s: string): (r: Option<string>)
    ensures r.Some? ==> r.value == s || |r.value| < |s|
    ensures r.Some? && s != "" && s[0] != '%' ==> r.value != "" && r.value[0] == s[0]
    ensures '%' !in s ==> r == Some(s)
    ensures r == Some(s) ==> '%' !in s
  {
    if s == "" then Some("")
    else if s[0] != '%' then
      var rest := Unescape(s[1..]);
      assert s == [s[0]] + s[1..];
      if rest.None? then None else Some([s[0]] + rest.value)
    else if |s| < 3 || HexValue(s[1]).None? || HexValue(s[2]).None? then None
    else
      var rest := Unescape(s[3..]);
      if rest.None? then None
      else Some([(16 * HexValue(s[1]).value + HexValue(s[2]).value) as char] + rest.value)
  }

  /** url.Parse accepts it, for a text that starts with a slash. */
  predicate UrlOk(u: string) {
    && NoControl(Before(u, '#'))
    && Unescape(Before(Before(u, '#'), '?')).Some?
    && Unescape(From(u, '#')).Some?
  }

  // ---------- dot segments ----------

  /** The stack after one segment. */
  function Stepped(seg: string, last: bool, stack: seq<string>, keep: bool): seq<string> {
    var here :=
      if seg == ".." then (if stack == [] then [] else stack[..|stack| - 1])
      else if seg == "." || (seg == "" && !keep) then stack
      else stack + [seg];
    if keep && last && (seg == "." || seg == "..") then here + [""] else here
  }

  /** The segments that are left; `keep` says whether empty ones stay and a final dot leaves a slash. */
  function Walk(segs: seq<string>, stack: seq<string>, keep: bool): seq<string>
    decreases |segs|
  {
    if segs == [] then stack
    else Walk(segs[1..], Stepped(segs[0], |segs| == 1, stack, keep), keep)
  }

  function Slashed(segs: seq<string>): string {
    if segs == [] then "" else Slashed(segs[..|segs| - 1]) + "/" + segs[|segs| - 1]
  }

  function Rooted(segs: seq<string>): (r: string)
    ensures r != ""
  {
    if segs == [] then "/" else Slashed(segs)
  }

  /** path.Clean of a rooted path. */
  function PathClean(p: string): (r: string)
    requires p != "" && p[0] == '/'
    ensures r != ""
  {
    Rooted(Walk(Split(p[1..], '/'), [], false))
  }

  /** Removal of dot segments, section 5.2.4 of RFC 3986. */
  function RemoveDots(p: string): (r: string)
    requires p != "" && p[0] == '/'
    ensures r != ""
  {
    Rooted(Walk(Split(p[1..], '/'), [], true))
  }

  // ---------- server, client, server ----------

  /** http.Redirect for a URL that starts with a slash: it cleans the path unless there is a host or no URL at all. */
  function Redirected(url: string): string
    requires url != "" && url[0] == '/'
  {
    if !UrlOk(url) || HasPrefix(url, "//") then url
    else
      var p := Before(url, '?');
      if p == "" then url
      else
        var clean := PathClean(p);
        (if HasSuffix(p, "/") && !HasSuffix(clean, "/") then clean + "/" else clean) + From(url, '?')
  }

  /** The header as it is written: line breaks become spaces. */
  function Location(url: string): string
    requires url != "" && url[0] == '/'
  {
    ReplaceChar(ReplaceChar(Redirected(url), '\n', " "), '\r', " ")
  }

  /** The request path that the same server reads; None when client or server refuses, or another host is asked. */
  function Requested(ua: UserAgent, loc: string): Option<string> {
    if ua.refusesControls && !UrlOk(loc) then None
    else
      var raw := Before(Before(loc, '#'), '?');
      var p := if ua.backslashIsSlash then ReplaceChar(raw, '\\', "/") else raw;
      if p == "" || p[0] != '/' || HasPrefix(p, "//") then None
      else Unescape(RemoveDots(p))
  }

  /** Following the redirect asks for the control page of the tunnel with this ID. */
  predicate Reaches(ua: UserAgent, loc: string, id: string) {
    var p := Requested(ua, loc);
    p.Some? && RouteFromPath(p.value) == ControlPage && TunnelOf(p.value) == id
  }

  /** The IDs that survive the way. */
  predicate Safe(ua: UserAgent, id: string) {
    && id != "" && id != "." && id != ".."
    && '%' !in id && '?' !in id && '#' !in id && '\r' !in id
    && (ua.refusesControls ==> NoControl(id))
    && (ua.backslashIsSlash ==> '\\' !in id)
  }

  // ---------- lengths and characters ----------

  lemma SlashedNone()
    ensures Slashed([]) == ""
  {
  }

  lemma {:induction false} SplitSize(s: string)
    ensures |Slashed(Split(s, '/'))| == |s| + 1
    decreases |s|
  {
    hide IndexOf, Slashed;
    var i := IndexOf(s, '/');
    if i < 0 {
      SlashedNone();
      SlashedFirst(s, []);
      assert [s] + [] == Split(s, '/');
    } else {
      var rest := Split(s[i + 1..], '/');
      SplitSize(s[i + 1..]);
      SlashedFirst(s[..i], rest);
    }
  }

  lemma {:induction false} SlashedFirst(x: string, rest: seq<string>)
    ensures Slashed([x] + rest) == "/" + x + Slashed(rest)
  {
    if rest == [] {
      assert [x] + rest == [x] && [x][..0] == [];
    } else {
      SlashedFirst(x, rest[..|rest| - 1]);
      assert ([x] + rest)[..|rest|] == [x] + rest[..|rest| - 1];
    }
  }

  lemma SlashedAppend(segs: seq<string>, x: string)
    ensures Slashed(segs + [x]) == Slashed(segs) + "/" + x
  {
    assert (segs + [x])[..|segs|] == segs;
  }

  lemma SteppedSize(seg: string, last: bool, stack: seq<string>, keep: bool)
    ensures |Slashed(Stepped(seg, last, stack, keep))| <= |Slashed(stack)| + 1 + |seg|
  {
    var front := if stack == [] then [] else stack[..|stack| - 1];
    SlashedAppend(stack, seg);
    SlashedAppend(stack, "");
    SlashedAppend(front, "");
  }

  lemma {:induction false} WalkSize(segs: seq<string>, stack: seq<string>, keep: bool)
    ensures |Slashed(Walk(segs, stack, keep))| <= |Slashed(stack)| + |Slashed(segs)|
    decreases |segs|
  {
    if segs != [] {
      hide Stepped;
      SteppedSize(segs[0], |segs| == 1, stack, keep);
      WalkSize(segs[1..], Stepped(segs[0], |segs| == 1, stack, keep), keep);
      assert segs == [segs[0]] + segs[1..];
      SlashedFirst(segs[0], segs[1..]);
    }
  }

  lemma RootedSize(p: string, keep: bool)
    requires p != "" && p[0] == '/'
    ensures |Rooted(Walk(Split(p[1..], '/'), [], keep))| <= |p|
  {
    SplitSize(p[1..]);
    WalkSize(Split(p[1..], '/'), [], keep);
  }

  /** The texts of `segs` do not contain `c`. */
  ghost predicate Without(segs: seq<string>, c: char) {
    forall i :: 0 <= i < |segs| ==> c !in segs[i]
  }

  lemma {:induction false} SplitWithout(s: string, c: char)
    requires c !in s
    ensures Without(Split(s, '/'), c)
    decreases |s|
  {
    var i := IndexOf(s, '/');
    if i >= 0 {
      SplitWithout(s[i + 1..], c);
    }
  }

  lemma {:induction false} WalkWithout(segs: seq<string>, stack: seq<string>, keep: bool, c: char)
    requires Without(segs, c) && Without(stack, c)
    ensures Without(Walk(segs, stack, keep), c)
    decreases |segs|
  {
    if segs != [] {
      WalkWithout(segs[1..], Stepped(segs[0], |segs| == 1, stack, keep), keep, c);
    }
  }

  lemma {:induction false} SlashedWithout(segs: seq<string>, c: char)
    requires Without(segs, c) && c != '/'
    ensures c !in Slashed(segs)
  {
    if segs != [] {
      SlashedWithout(segs[..|segs| - 1], c);
    }
  }

  lemma RootedWithout(p: string, keep: bool, c: char)
    requires p != "" && p[0] == '/' && c !in p && c != '/'
    ensures c !in Rooted(Walk(Split(p[1..], '/'), [], keep))
  {
    SplitWithout(p[1..], c);
    WalkWithout(Split(p[1..], '/'), [], keep, c);
    SlashedWithout(Walk(Split(p[1..], '/'), [], keep), c);
  }

  lemma {:induction false} ReplaceSize(s: string, c: char, sub: char)
    ensures |ReplaceChar(s, c, [sub])| == |s|
    ensures forall i :: 0 <= i < |s| ==> ReplaceChar(s, c, [sub])[i] == if s[i] == c then sub else s[i]
  {
    if s != "" {
      ReplaceSize(s[1..], c, sub);
    }
  }

  lemma ReplaceSame(s: string, c: char, sub: char)
    requires c !in s
    ensures ReplaceChar(s, c, [sub]) == s
  {
    ReplaceSize(s, c, sub);
  }

  // ---------- what a request path can be about ----------

  /** The ID in a control path is at least nine characters shorter than the path. */
  lemma TunnelIsShort(p: string)
    requires p != "" && p[0] == '/' && RouteFromPath(p) == ControlPage
    ensures |TunnelOf(p)| + 9 <= |p|
  {
    hide Clean;
    var dir := SplitPath(p).0;
    assert dir[0] == '/' && dir[|dir| - 1] == '/' && |dir| >= 2 && |p| == |dir| + 7;
    BaseIsShort(dir);
    CleanSlash();
    CleanIsCharMap(Base(dir));
    CleanMapIsClean(Base(dir));
  }

  lemma BaseIsShort(dir: string)
    requires |dir| >= 2 && dir[0] == '/' && dir[|dir| - 1] == '/'
    ensures Base(dir) == "/" || |Base(dir)| + 2 <= |dir|
  {
    var s := StripSlashes(dir);
    StripKeepsFront(dir);
  }

  lemma {:induction false} StripKeepsFront(p: string)
    ensures |StripSlashes(p)| <= |p| && StripSlashes(p) == p[..|StripSlashes(p)|]
    ensures p != "" && p[|p| - 1] == '/' ==> |StripSlashes(p)| < |p|
  {
    if p != "" && p[|p| - 1] == '/' {
      StripKeepsFront(p[..|p| - 1]);
    }
  }

  lemma BaseWithout(dir: string, c: char)
    requires c !in dir && (c == '\\' || c == '\r' || c == '%')
    ensures c !in Base(dir)
  {
    hide StripSlashes, LastIndexOf;
    var s := StripSlashes(dir);
    StripKeepsFront(dir);
    assert forall i :: 0 <= i < |s| ==> s[i] == dir[i];
  }

  lemma TunnelWithout(p: string, c: char)
    requires c !in p && (c == '\\' || c == '\r' || c == '%')
    ensures c !in TunnelOf(p)
  {
    hide Clean, Base, LastIndexOf;
    var dir := SplitPath(p).0;
    BaseWithout(dir, c);
    CleanIsCharMap(Base(dir));
    CleanMapWithout(Base(dir), c);
  }

  lemma {:induction false} CleanMapWithout(s: string, c: char)
    requires c !in s && (c == '\\' || c == '\r' || c == '%')
    ensures c !in CleanMap(s)
  {
    if s != "" {
      CleanMapWithout(s[1..], c);
    }
  }

  // ---------- the way of a safe ID ----------

  predicate Plain(id: string) {
    '/' !in id && id != "" && id != "." && id != ".."
  }

  lemma OneSegment(id: string, keep: bool)
    requires Plain(id)
    ensures Rooted(Walk(Split(ActionPath(id, "control")[1..], '/'), [], keep)) == ActionPath(id, "control")
  {
    var q := id + "/control";
    assert ActionPath(id, "control")[1..] == q;
    NoSlash();
    SplitTwo(id, "control");
    assert q == id + "/" + "control";
    TwoSegments(id, keep);
  }

  lemma TwoSegments(id: string, keep: bool)
    requires Plain(id)
    ensures Rooted(Walk([id, "control"], [], keep)) == ActionPath(id, "control")
  {
    var segs := [id, "control"];
    assert segs[1..] == ["control"] && ["control"][1..] == [];
    assert [] + [id] == [id] && [id] + ["control"] == segs;
    assert Stepped(id, false, [], keep) == [id];
    assert "control" != "." && "control" != "..";
    assert Stepped("control", true, [id], keep) == segs;
    assert Walk(["control"], [id], keep) == segs;
    assert Walk(segs, [], keep) == segs;
    SlashedTwo(id, "control");
  }

  lemma SlashedTwo(a: string, b: string)
    ensures Slashed([a, b]) == "/" + a + "/" + b
  {
    hide Slashed;
    SlashedNone();
    SlashedFirst(b, []);
    SlashedFirst(a, [b]);
    assert [b] + [] == [b] && [a] + [b] == [a, b];
  }

  lemma BeforeTwice(s: string, a: char, b: char)
    ensures |Before(Before(s, a), b)| <= |Before(s, b)| && |Before(Before(s, a), b)| <= |Before(s, a)|
  {
    hide Before;
    var x, y := Before(s, a), Before(s, b);
    if |x| > |y| {
      assert y != s;
      BeforeAt(s, b);
      assert x[|y|] == b;
      BeforeEnds(x, b, |y|);
    }
  }

  lemma BeforeAt(s: string, c: char)
    requires c in s
    ensures |Before(s, c)| < |s| && s[|Before(s, c)|] == c
  {
  }

  lemma BeforeEnds(s: string, c: char, i: nat)
    requires i < |s| && s[i] == c
    ensures |Before(s, c)| <= i
  {
  }

  lemma BeforeJoined(a: string, b: string, c: char)
    requires c !in a && b != "" && b[0] == c
    ensures Before(a + b, c) == a
  {
    hide Before;
    var s := a + b;
    BeforeEnds(s, c, |a|);
    BeforeAt(s, c);
    assert forall i :: 0 <= i < |a| ==> s[i] == a[i];
  }

  lemma BeforeReplaced(s: string, c: char, x: char)
    requires c != x && c != ' '
    ensures |Before(ReplaceChar(s, x, " "), c)| == |Before(s, c)|
  {
    hide Before, ReplaceChar;
    var t := ReplaceChar(s, x, " ");
    ReplaceSize(s, x, ' ');
    if c in s {
      BeforeAt(s, c);
      BeforeEnds(t, c, |Before(s, c)|);
    }
    if c in t {
      BeforeAt(t, c);
      BeforeEnds(s, c, |Before(t, c)|);
    }
  }

  /** The header has the length of what http.Redirect makes, and no carriage return. */
  lemma LocationSize(url: string, c: char)
    requires url != "" && url[0] == '/' && (c == '?' || c == '#')
    ensures |Location(url)| == |Redirected(url)|
    ensures |Before(Location(url), c)| == |Before(Redirected(url), c)|
    ensures '\r' !in Location(url)
  {
    hide Redirected, ReplaceChar, Before;
    var s := Redirected(url);
    var t := ReplaceChar(s, '\n', " ");
    ReplaceSize(s, '\n', ' ');
    ReplaceSize(t, '\r', ' ');
    BeforeReplaced(s, c, '\n');
    BeforeReplaced(t, c, '\r');
  }

  lemma EndsWithoutSlash(a: string, b: string)
    requires b != "" && '/' !in b
    ensures !HasSuffix(a + b, "/")
  {
    var s := a + b;
    var tail := s[|s| - 1..];
    assert tail[0] == s[|s| - 1] == b[|b| - 1];
  }

  lemma RedirectedSame(id: string)
    requires Plain(id) && '?' !in id
    ensures Redirected(ActionPath(id, "control")) == ActionPath(id, "control")
  {
    hide UrlOk, Walk, Rooted;
    var url := ActionPath(id, "control");
    assert '?' !in "control";
    assert '?' !in url;
    assert Before(url, '?') == url;
    OneSegment(id, false);
    assert url + "" == url;
    EndsWithoutSlash("/" + id + "/", "control");
  }

  /** What is left of the Location as a path when the ID contains a '?' or '#', or is a dot segment. */
  lemma RawShort(id: string)
    requires '/' !in id && id != ""
    requires '?' in id || '#' in id || id == "." || id == ".."
    ensures var loc := Location(ActionPath(id, "control"));
      |Before(Before(loc, '#'), '?')| < |ActionPath(id, "control")|
  {
    hide Before, Location, Redirected;
    var url := ActionPath(id, "control");
    var loc := Location(url);
    BeforeTwice(loc, '#', '?');
    LocationSize(url, '#');
    LocationSize(url, '?');
    if '?' in id {
      QueryCut(id);
    } else if id == "." || id == ".." {
      DotsCleaned(id);
    } else {
      RedirectedSame(id);
      var k :| 0 <= k < |id| && id[k] == '#';
      assert url[k + 1] == '#';
      BeforeEnds(url, '#', k + 1);
    }
  }

  lemma DotsCleaned(id: string)
    requires id == "." || id == ".."
    ensures Redirected(ActionPath(id, "control")) == "/control"
  {
    hide UrlOk, PathClean, Before;
    var url := ActionPath(id, "control");
    OtherChars();
    ControlFree(id);
    assert '#' !in url && '?' !in url && '%' !in url;
    UrlOkPlain(url);
    DotWalk(id);
    assert url[1] == '.';
    EndsWithoutSlash("/" + id + "/", "control");
    assert "/control" + "" == "/control";
  }

  lemma DotWalk(id: string)
    requires id == "." || id == ".."
    ensures PathClean(ActionPath(id, "control")) == "/control"
  {
    hide Walk, Slashed, Split;
    var c := "control";
    NoSlash();
    SplitTwo(id, c);
    assert ActionPath(id, c)[1..] == id + "/" + c;
    DotSkipped(id);
    SlashedOne(c);
  }

  lemma SlashedOne(x: string)
    ensures Slashed([x]) == "/" + x
  {
    hide Slashed;
    SlashedNone();
    SlashedFirst(x, []);
    assert [x] + [] == [x] && "/" + x + "" == "/" + x;
  }

  lemma SplitTwo(a: string, b: string)
    requires '/' !in a && '/' !in b
    ensures Split(a + "/" + b, '/') == [a, b]
  {
    hide IndexOf;
    var q := a + "/" + b;
    assert q == a + ['/'] + b;
    IndexUnique(a, '/', b);
    assert q[..|a|] == a && q[|a| + 1..] == b;
  }

  lemma DotSkipped(id: string)
    requires id == "." || id == ".."
    ensures Walk([id, "control"], [], false) == ["control"]
  {
    var c := "control";
    assert [id, c][1..] == [c] && [c][1..] == [] && [] + [c] == [c];
    assert c != "." && c != ".." && c != "";
    assert Stepped(id, false, [], false) == [] && Stepped(c, true, [], false) == [c];
    assert Walk([c], [], false) == [c];
  }

  /** A text without escapes, control characters and a fragment is a URL. */
  lemma UrlOkPlain(url: string)
    requires NoControl(url) && '%' !in url && '#' !in url
    ensures UrlOk(url)
  {
    hide Unescape, IsControl;
    assert Before(url, '#') == url;
    assert '%' !in Before(url, '?');
    assert From(url, '#') == "";
  }

  lemma QueryCut(id: string)
    requires '/' !in id && '?' in id
    ensures |Before(Redirected(ActionPath(id, "control")), '?')| < |ActionPath(id, "control")|
  {
    hide UrlOk, Before;
    var url := ActionPath(id, "control");
    var k :| 0 <= k < |id| && id[k] == '?';
    assert url[k + 1] == '?';
    BeforeAt(url, '?');
    BeforeEnds(url, '?', k + 1);
    if Redirected(url) != url {
      var p := Before(url, '?');
      assert p == "/" + id[..|p| - 1];
      RootedSize(p, false);
      RootedWithout(p, false, '?');
      if HasSuffix(p, "/") {
        assert p == "/";
        RootClean();
      }
      BeforeJoined(PathClean(p), From(url, '?'), '?');
    }
  }

  lemma RootClean()
    ensures PathClean("/") == "/"
  {
    assert "/"[1..] == "" && Split("", '/') == [""] && [""][1..] == [];
  }

  // ---------- exactly when the redirect reaches the tunnel ----------

  lemma SafeReaches(ua: UserAgent, id: string)
    requires IsClean(id) && Safe(ua, id)
    ensures Reaches(ua, Location(ActionPath(id, "control")), id)
  {
    hide UrlOk, Unescape, Walk, Rooted, RouteFromPath, TunnelOf, Clean, ReplaceChar;
    var url := ActionPath(id, "control");
    OtherChars();
    RedirectedSame(id);
    assert '\n' !in url && '\r' !in url && '#' !in url && '?' !in url && '%' !in url;
    ReplaceSame(url, '\n', ' ');
    ReplaceSame(url, '\r', ' ');
    assert Location(url) == url;
    assert Before(url, '#') == url && Before(url, '?') == url;
    if ua.refusesControls {
      assert NoControl(url) by {
        ControlFree(id);
      }
      UrlOkPlain(url);
    }
    if ua.backslashIsSlash {
      assert '\\' !in url;
      ReplaceSame(url, '\\', '/');
    }
    assert url[1] == id[0];
    OneSegment(id, true);
    CleanFixes(id);
    PagesRouteBack(id);
  }

  lemma OtherChars()
    ensures forall c :: c in "control" ==> 'a' <= c <= 'z'
  {
  }

  lemma ControlFree(id: string)
    ensures NoControl(ActionPath(id, "control")) <==> NoControl(id)
  {
    var url := ActionPath(id, "control");
    OtherChars();
    assert forall i :: 0 <= i < |id| ==> url[i + 1] == id[i];
    forall i | 0 <= i < |url| ensures IsControl(url[i]) ==> 0 < i <= |id| {
      if i > |id| + 1 {
        assert url[i] == "control"[i - |id| - 2];
      }
    }
  }

  /** The path that a client asks for is no longer than what it takes from the Location. */
  lemma RequestedSize(ua: UserAgent, loc: string)
    requires Requested(ua, loc).Some?
    ensures var raw, p := Before(Before(loc, '#'), '?'), Requested(ua, loc).value;
      && p != "" && p[0] == '/' && |p| <= |raw|
      && (|p| == |raw| ==> '%' !in p && (ua.backslashIsSlash ==> '\\' !in p) && ('\r' !in loc ==> '\r' !in p))
  {
    hide UrlOk, Unescape, Walk, Rooted, ReplaceChar, Before;
    var raw := Before(Before(loc, '#'), '?');
    var q := if ua.backslashIsSlash then ReplaceChar(raw, '\\', "/") else raw;
    ReplaceSize(raw, '\\', '/');
    RootedSize(q, true);
    RootedSlash(Walk(Split(q[1..], '/'), [], true));
    if |Requested(ua, loc).value| == |raw| {
      if ua.backslashIsSlash {
        RootedWithout(q, true, '\\');
      }
      if '\r' !in loc {
        assert '\r' !in q;
        RootedWithout(q, true, '\r');
      }
    }
  }

  lemma RootedSlash(segs: seq<string>)
    ensures Rooted(segs)[0] == '/'
  {
    if segs != [] {
      SlashedFirst(segs[0], segs[1..]);
      assert segs == [segs[0]] + segs[1..];
    }
  }

  lemma ReachesOnlySafe(ua: UserAgent, id: string)
    requires IsClean(id) && Reaches(ua, Location(ActionPath(id, "control")), id)
    ensures Safe(ua, id)
  {
    hide Requested, Location, RouteFromPath, TunnelOf, Before, IsControl, UrlOk;
    var url := ActionPath(id, "control");
    var loc := Location(url);
    var p := Requested(ua, loc).value;
    if id == "" {
      OtherHost(ua);
    }
    RequestedSize(ua, loc);
    TunnelIsShort(p);
    if '?' in id || '#' in id || id == "." || id == ".." {
      RawShort(id);
    }
    RedirectedSame(id);
    LocationSize(url, '?');
    BeforeTwice(loc, '#', '?');
    assert |p| == |Before(Before(loc, '#'), '?')|;
    TunnelWithout(p, '%');
    TunnelWithout(p, '\r');
    if ua.backslashIsSlash {
      TunnelWithout(p, '\\');
    }
    if ua.refusesControls {
      ControlsRefused(ua, id);
    }
  }

  lemma ControlsRefused(ua: UserAgent, id: string)
    requires IsClean(id) && Plain(id) && '?' !in id && '#' !in id && '\r' !in id
    requires ua.refusesControls && Requested(ua, Location(ActionPath(id, "control"))).Some?
    ensures NoControl(id)
  {
    hide IsControl, ReplaceChar, Requested, Redirected, UrlOk;
    var url := ActionPath(id, "control");
    OtherChars();
    RedirectedSame(id);
    assert '\n' !in url && '\r' !in url && '#' !in url;
    ReplaceSame(url, '\n', ' ');
    ReplaceSame(url, '\r', ' ');
    BadUrlRefused(ua, url);
    ControlFree(id);
  }

  lemma BadUrlRefused(ua: UserAgent, url: string)
    requires ua.refusesControls && Requested(ua, url).Some? && '#' !in url
    ensures NoControl(url)
  {
    hide IsControl, Unescape, ReplaceChar, RemoveDots;
    assert Before(url, '#') == url;
  }

  /** An empty ID makes the Location name another host. */
  lemma OtherHost(ua: UserAgent)
    ensures Location(ActionPath("", "control")) == "//control"
    ensures Requested(ua, "//control") == None
  {
    hide UrlOk, Walk, Rooted, ReplaceChar;
    var url := "//control";
    assert ActionPath("", "control") == url && url[..2] == "//";
    OtherChars();
    assert '\n' !in url && '\r' !in url && '#' !in url && '?' !in url && '\\' !in url;
    ReplaceSame(url, '\n', ' ');
    ReplaceSame(url, '\r', ' ');
    ReplaceSame(url, '\\', '/');
  }

  /**
   For every name, the redirect to the control page reaches the tunnel with its ID if and only if the ID is
   not empty, no dot segment, and free of the characters that a URL or a header treats specially.
   */
  lemma RedirectReachesExactlyWhen(ua: UserAgent, name: string)
    ensures Reaches(ua, Location(ActionPath(Clean(name), "control")), Clean(name)) <==> Safe(ua, Clean(name))
  {
    hide Clean, Reaches, Safe, Location;
    CleanFixes(name);
    if Safe(ua, Clean(name)) {
      SafeReaches(ua, Clean(name));
    }
    if Reaches(ua, Location(ActionPath(Clean(name), "control")), Clean(name)) {
      ReachesOnlySafe(ua, Clean(name));
    }
  }

  lemma QueryRedirected(a: string, query: string)
    requires Plain(a) && '?' !in a && query != "" && query[0] == '?'
    ensures Before("/" + a + query, '?') == "/" + a
    ensures Redirected("/" + a + query) == "/" + a + query
  {
    hide UrlOk, Walk, Rooted, Before;
    var front := "/" + a;
    BeforeJoined(front, query, '?');
    OneName(a, false);
    assert (front + query)[1] == a[0];
    EndsWithoutSlash("/", a);
  }

  lemma QueryLocation(a: string, b: string)
    requires IsClean(a) && IsClean(b) && Plain(a) && '\r' !in a && '\r' !in b && '?' !in a
    ensures Location(ActionPath(a + "?" + b, "control")) == ActionPath(a + "?" + b, "control")
    ensures Before(ActionPath(a + "?" + b, "control"), '?') == "/" + a
  {
    hide Redirected, ReplaceChar, Before, Plain;
    var query := "?" + b + "/control";
    var url := ActionPath(a + "?" + b, "control");
    OtherChars();
    assert url == "/" + a + query;
    QueryRedirected(a, query);
    assert '\n' !in url && '\r' !in url;
    ReplaceSame(url, '\n', ' ');
    ReplaceSame(url, '\r', ' ');
  }

  /**
   One family of names that the form accepts and whose redirect is lost, "a?b" among them: the client asks
   for "/a", which is the overview.
   */
  lemma QuestionMarkIsLost(ua: UserAgent, a: string, b: string)
    requires IsClean(a) && IsClean(b) && Safe(ua, a) && Safe(ua, b)
    ensures Clean(a + "?" + b) == a + "?" + b
    ensures Requested(ua, Location(ActionPath(a + "?" + b, "control"))) == Some("/" + a)
    ensures RouteFromPath("/" + a) == if a == "new" then NewPage else GroupPage
  {
    hide UrlOk, Unescape, Walk, Rooted, Clean, ReplaceChar, Before, RouteFromPath, Location;
    var id, front := a + "?" + b, "/" + a;
    var url := ActionPath(id, "control");
    OtherChars();
    CleanFixes(id);
    QueryLocation(a, b);
    assert '#' !in url && '%' !in url;
    assert Before(url, '#') == url;
    if ua.refusesControls {
      ControlFree(id);
      UrlOkPlain(url);
    }
    if ua.backslashIsSlash {
      ReplaceSame(front, '\\', '/');
    }
    assert front[1] == a[0];
    OneName(a, true);
    assert front[1..] == a;
    RootPage(a);
  }

  lemma OneName(a: string, keep: bool)
    requires Plain(a)
    ensures Rooted(Walk(Split(("/" + a)[1..], '/'), [], keep)) == "/" + a
  {
    hide IndexOf, Slashed;
    assert ("/" + a)[1..] == a;
    assert Split(a, '/') == [a];
    assert [a][1..] == [] && [] + [a] == [a];
    SlashedNone();
    SlashedFirst(a, []);
    assert [a] + [] == [a];
  }

  lemma RootPage(a: string)
    requires '/' !in a
    ensures RouteFromPath("/" + a) == if a == "new" then NewPage else GroupPage
  {
    hide LastIndexOf;
    LastIndexUnique("", '/', a);
    assert "" + ['/'] + a == "/" + a;
    assert ("/" + a)[..1] == "/" && ("/" + a)[1..] == a;
  }
}
