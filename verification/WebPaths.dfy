/**
 Tunnel IDs and the URL paths that contain them (lib/core/types.go, webui/controller/from_home.go).
 */
module WebPaths {
  import opened Text

  // ---------- Clean ----------

  function Clean(name: string): string {
    ReplaceChar(ReplaceChar(ReplaceChar(ReplaceChar(name, '\n', "+"), '\t', "_"), ' ', "-"), '/', "")
  }

  /** What becomes of one character. */
  function CleanChar(c: char): string {
    if c == '\n' then "+" else if c == '\t' then "_" else if c == ' ' then "-" else if c == '/' then "" else [c]
  }

  function CleanMap(s: string): string {
    if s == "" then "" else CleanChar(s[0]) + CleanMap(s[1..])
  }

  lemma ReplaceNone(x: char, sub: string)
    ensures ReplaceChar("", x, sub) == ""
  {
  }

  lemma CleanOne(c: char)
    ensures Clean([c]) == CleanChar(c)
  {
    hide ReplaceChar;
    ReplaceOne(c, '\n', "+");
    ReplaceOne(c, '\t', "_");
    ReplaceOne(c, ' ', "-");
    ReplaceOne(c, '/', "");
    ReplaceOne('+', '\t', "_");
    ReplaceOne('+', ' ', "-");
    ReplaceOne('+', '/', "");
    ReplaceOne('_', ' ', "-");
    ReplaceOne('_', '/', "");
    ReplaceOne('-', '/', "");
    ReplaceNone('/', "");
  }

  lemma CleanConcat(a: string, b: string)
    ensures Clean(a + b) == Clean(a) + Clean(b)
  {
    hide ReplaceChar;
    var a1, b1 := ReplaceChar(a, '\n', "+"), ReplaceChar(b, '\n', "+");
    var a2, b2 := ReplaceChar(a1, '\t', "_"), ReplaceChar(b1, '\t', "_");
    var a3, b3 := ReplaceChar(a2, ' ', "-"), ReplaceChar(b2, ' ', "-");
    ReplaceConcat(a, b, '\n', "+");
    ReplaceConcat(a1, b1, '\t', "_");
    ReplaceConcat(a2, b2, ' ', "-");
    ReplaceConcat(a3, b3, '/', "");
  }

  /** The four passes are one pass that treats every character on its own. */
  lemma {:induction false} CleanIsCharMap(s: string)
    ensures Clean(s) == CleanMap(s)
  {
    hide Clean;
    if s == "" {
      CleanEmpty();
    } else {
      assert s == [s[0]] + s[1..];
      CleanConcat([s[0]], s[1..]);
      CleanOne(s[0]);
      CleanIsCharMap(s[1..]);
    }
  }

  lemma CleanEmpty()
    ensures Clean("") == ""
  {
  }

  predicate IsClean(s: string) {
    forall i :: 0 <= i < |s| ==> s[i] != '\n' && s[i] != '\t' && s[i] != ' ' && s[i] != '/'
  }

  lemma {:induction false} CleanMapIsClean(s: string)
    ensures IsClean(CleanMap(s)) && |CleanMap(s)| <= |s|
    ensures IsClean(s) ==> CleanMap(s) == s
  {
    if s != "" {
      CleanMapIsClean(s[1..]);
      assert IsClean(s) ==> IsClean(s[1..]);
      assert IsClean(s) ==> CleanChar(s[0]) == [s[0]];
    }
  }

  /** An ID holds none of the four characters, and exactly the texts without them are left as they are. */
  lemma CleanFixes(s: string)
    ensures IsClean(Clean(s))
    ensures Clean(s) == s <==> IsClean(s)
  {
    hide Clean;
    CleanIsCharMap(s);
    CleanMapIsClean(s);
  }

  lemma CleanIdempotent(s: string)
    ensures Clean(Clean(s)) == Clean(s)
  {
    hide Clean;
    CleanFixes(s);
    CleanFixes(Clean(s));
  }

  // ---------- paths ----------

  /** path.Split. */
  function SplitPath(p: string): (string, string) {
    var i := LastIndexOf(p, '/');
    (p[..i + 1], p[i + 1..])
  }

  function StripSlashes(p: string): string {
    if p != "" && p[|p| - 1] == '/' then StripSlashes(p[..|p| - 1]) else p
  }

  /** path.Base. */
  function Base(p: string): string {
    if p == "" then "."
    else
      var s := StripSlashes(p);
      var last := s[LastIndexOf(s, '/') + 1..];
      if last == "" then "/" else last
  }

  datatype Page = GroupPage | NewPage | ControlPage | ConfigPage

  function RouteFromPath(p: string): Page {
    var (dir, file) := SplitPath(p);
    if dir == "/" then (if file == "new" then NewPage else GroupPage)
    else if file == "config" then ConfigPage
    else if file == "control" then ControlPage
    else GroupPage
  }

  /** The tunnel ID that a request is about; "" when it is about none. */
  function TunnelOf(p: string): string {
    var (dir, file) := SplitPath(p);
    if file == "config" || file == "control" then Clean(Base(dir)) else ""
  }

  function ActionPath(id: string, action: string): string {
    "/" + id + "/" + action
  }

  lemma SplitAction(id: string, action: string)
    requires '/' !in action
    ensures SplitPath(ActionPath(id, action)) == ("/" + id + "/", action)
  {
    var front := "/" + id;
    LastIndexUnique(front, '/', action);
    var p := front + ['/'] + action;
    assert p[..|front| + 1] == front + ['/'] && p[|front| + 1..] == action;
    assert p == ActionPath(id, action);
    assert front + ['/'] == "/" + id + "/";
  }

  lemma BaseOfDir(id: string)
    requires '/' !in id
    ensures Base("/" + id + "/") == if id == "" then "/" else id
  {
    var d := "/" + id + "/";
    assert d[..|d| - 1] == "/" + id;
    if id == "" {
      assert d == "//" && "//"[..1] == "/" && "/"[..0] == "";
      assert StripSlashes(d) == "";
    } else {
      assert ("/" + id)[|id|] == id[|id| - 1];
      assert StripSlashes(d) == "/" + id;
      LastIndexUnique("", '/', id);
      assert "" + ['/'] + id == "/" + id;
      assert ("/" + id)[1..] == id;
    }
  }

  /** Every name's control and config pages route to that action and give the name's ID back. */
  lemma PagesRouteBack(name: string)
    ensures RouteFromPath(ActionPath(Clean(name), "control")) == ControlPage
    ensures RouteFromPath(ActionPath(Clean(name), "config")) == ConfigPage
    ensures TunnelOf(ActionPath(Clean(name), "control")) == Clean(name)
    ensures TunnelOf(ActionPath(Clean(name), "config")) == Clean(name)
  {
    hide Clean, SplitPath, Base;
    var id := Clean(name);
    CleanFixes(name);
    NoSlash();
    SplitAction(id, "control");
    SplitAction(id, "config");
    BaseOfDir(id);
    CleanIdempotent(name);
    CleanSlash();
    assert |"/" + id + "/"| > 1;
  }

  lemma NoSlash()
    ensures '/' !in "control" && '/' !in "config"
  {
  }

  lemma CleanSlash()
    ensures Clean("/") == ""
  {
    CleanOne('/');
  }
}
