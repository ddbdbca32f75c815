/**
 Masking of user@host in IRC messages (lib/irc/server/sanitize.go): every match of `@[^\s]+` is replaced
 by "@" + host, where Go's regexp package reads the replacement as a template.
 */
module HostMask {
  import opened Wrappers

  /** The class \s. */
  predicate IsBlank(c: char) {
    c == '\t' || c == '\n' || c == 12 as char || c == '\r' || c == ' '
  }

  predicate NoBlank(s: string) {
    forall k :: 0 <= k < |s| ==> !IsBlank(s[k])
  }

  /** Length of the longest blank-free prefix. */
  function Span(s: string): (n: nat)
    ensures n <= |s| && NoBlank(s[..n])
    ensures n < |s| ==> IsBlank(s[n])
  {
    if s == "" || IsBlank(s[0]) then 0
    else
      assert s[1..][..Span(s[1..])] == s[..1 + Span(s[1..])][1..];
      1 + Span(s[1..])
  }

  // ---------- templates ----------

  predicate IsAsciiWord(c: char) {
    'a' <= c <= 'z' || 'A' <= c <= 'Z' || '0' <= c <= '9' || c == '_'
  }

  /** Letters, digits and '_': unicode.IsLetter and unicode.IsDigit are given, and known on ASCII. */
  type Words = f: char -> bool | forall c: char :: c as int < 128 ==> f(c) == IsAsciiWord(c)
    witness (c: char) => IsAsciiWord(c)

  function WordSpan(w: Words, s: string): (n: nat)
    ensures n <= |s|
  {
    if s == "" || !w(s[0]) then 0 else 1 + WordSpan(w, s[1..])
  }

  /** The name after a '$', bare or in braces, and the rest of the template. */
  function Extract(w: Words, s: string): (r: Option<(string, string)>)
    ensures r.Some? ==> |r.value.0| > 0 && |r.value.1| < |s|
  {
    if s == "" then None
    else
      var brace := s[0] == '{';
      var body := if brace then s[1..] else s;
      var i := WordSpan(w, body);
      if i == 0 || (brace && (i >= |body| || body[i] != '}')) then None
      else Some((body[..i], if brace then body[i + 1..] else body[i..]))
  }

  /** Regexp.expand for a pattern without groups: $0 is the match, other names are empty. */
  function Expand(w: Words, t: string, m: string): string
    decreases |t|
  {
    if t == "" then ""
    else if t[0] != '$' then [t[0]] + Expand(w, t[1..], m)
    else if |t| > 1 && t[1] == '$' then "$" + Expand(w, t[2..], m)
    else
      var x := Extract(w, t[1..]);
      if x.None? then "$" + Expand(w, t[1..], m)
      else (if x.value.0 == "0" then m else "") + Expand(w, x.value.1, m)
  }

  /** The '$' at `k` stands for itself. */
  predicate InertAt(w: Words, t: string, k: nat)
    requires k < |t|
  {
    t[k] == '$' ==> !(k + 1 < |t| && t[k + 1] == '$') && Extract(w, t[k + 1..]).None?
  }

  /** No '$' of `t` is special. */
  predicate Inert(w: Words, t: string) {
    forall k :: 0 <= k < |t| ==> InertAt(w, t, k)
  }

  lemma InertTail(w: Words, t: string)
    requires t != ""
    ensures Inert(w, t) <==> InertAt(w, t, 0) && Inert(w, t[1..])
  {
    forall k | 0 < k < |t| ensures InertAt(w, t, k) <==> InertAt(w, t[1..], k - 1) {
      assert t[k + 1..] == t[1..][k..];
    }
    if InertAt(w, t, 0) && Inert(w, t[1..]) {
      forall k | 0 <= k < |t| ensures InertAt(w, t, k) {
        if k > 0 {
          assert InertAt(w, t[1..], k - 1);
        }
      }
    }
    if Inert(w, t) {
      forall k | 0 <= k < |t| - 1 ensures InertAt(w, t[1..], k) {
        assert InertAt(w, t, k + 1);
      }
    }
  }

  lemma {:induction false} InertExpands(w: Words, t: string, m: string)
    requires Inert(w, t)
    ensures Expand(w, t, m) == t
    decreases |t|
  {
    if t != "" {
      InertTail(w, t);
      InertExpands(w, t[1..], m);
    }
  }

  /** How often the match itself is put in. */
  function Zeros(w: Words, t: string): nat
    decreases |t|
  {
    if t == "" then 0
    else if t[0] != '$' then Zeros(w, t[1..])
    else if |t| > 1 && t[1] == '$' then Zeros(w, t[2..])
    else
      var x := Extract(w, t[1..]);
      if x.None? then Zeros(w, t[1..]) else (if x.value.0 == "0" then 1 else 0) + Zeros(w, x.value.1)
  }

  /** A template that is not inert expands to something shorter, not counting the matches put in. */
  lemma {:induction false} ExpandedSize(w: Words, t: string, m: string)
    ensures |Expand(w, t, m)| == |Expand(w, t, "")| + Zeros(w, t) * |m|
    ensures |Expand(w, t, "")| <= |t| && (!Inert(w, t) ==> |Expand(w, t, "")| < |t|)
    decreases |t|
  {
    hide Inert, InertAt, Extract;
    if t == "" {
      EmptyIsInert(w);
    } else if t[0] != '$' || (!(|t| > 1 && t[1] == '$') && Extract(w, t[1..]).None?) {
      ExpandedSize(w, t[1..], m);
      PlainHead(w, t);
    } else if |t| > 1 && t[1] == '$' {
      ExpandedSize(w, t[2..], m);
    } else {
      ExpandedSize(w, Extract(w, t[1..]).value.1, m);
      var n := Zeros(w, Extract(w, t[1..]).value.1);
      assert (1 + n) * |m| == |m| + n * |m|;
    }
  }

  lemma EmptyIsInert(w: Words)
    ensures Inert(w, "")
  {
  }

  lemma PlainHead(w: Words, t: string)
    requires t != "" && InertAt(w, t, 0)
    ensures Inert(w, t) <==> Inert(w, t[1..])
  {
    InertTail(w, t);
  }

  // ---------- replacing ----------

  /** userHostPattern.ReplaceAllString(s, t). */
  function ReplaceAll(w: Words, s: string, t: string): string
    decreases |s|
  {
    if s == "" then ""
    else if s[0] == '@' && Span(s[1..]) > 0 then
      var n := 1 + Span(s[1..]);
      Expand(w, t, s[..n]) + ReplaceAll(w, s[n..], t)
    else [s[0]] + ReplaceAll(w, s[1..], t)
  }

  function Mask(w: Words, host: string, s: string): string {
    ReplaceAll(w, s, "@" + host)
  }

  // ---------- matches and the text between them ----------

  datatype Token = Text(c: char) | Match(s: string)

  predicate IsMatch(s: string) {
    |s| >= 2 && s[0] == '@' && NoBlank(s)
  }

  predicate StartsBlank(ts: seq<Token>) {
    ts == [] || (ts[0].Text? && IsBlank(ts[0].c))
  }

  predicate HeadOk(t: Token, rest: seq<Token>) {
    match t
    case Text(c) => c == '@' ==> StartsBlank(rest)
    case Match(s) => IsMatch(s) && StartsBlank(rest)
  }

  /** Matches are as long as can be, and no match is passed over. */
  predicate Canonical(ts: seq<Token>) {
    ts == [] || (HeadOk(ts[0], ts[1..]) && Canonical(ts[1..]))
  }

  function Chars(t: Token): string {
    match t
    case Text(c) => [c]
    case Match(s) => s
  }

  function Flatten(ts: seq<Token>): string {
    if ts == [] then "" else Chars(ts[0]) + Flatten(ts[1..])
  }

  /** The matches that the regular expression finds in `s`, and the characters outside them. */
  function Tokens(s: string): seq<Token>
    decreases |s|
  {
    if s == "" then []
    else if s[0] == '@' && Span(s[1..]) > 0 then
      var n := 1 + Span(s[1..]);
      [Match(s[..n])] + Tokens(s[n..])
    else [Text(s[0])] + Tokens(s[1..])
  }

  lemma StartsBlankTokens(s: string)
    ensures StartsBlank(Tokens(s)) <==> s == "" || IsBlank(s[0])
  {
  }

  /** The tokens of `s` make up `s`, and they are canonical. */
  lemma {:induction false} TokensOf(s: string)
    ensures Flatten(Tokens(s)) == s && Canonical(Tokens(s))
    decreases |s|
  {
    if s == "" {
    } else if s[0] == '@' && Span(s[1..]) > 0 {
      var n := 1 + Span(s[1..]);
      TokensOf(s[n..]);
      StartsBlankTokens(s[n..]);
      assert Tokens(s)[1..] == Tokens(s[n..]);
      assert NoBlank(s[..n]) by {
        assert s[1..][..n - 1] == s[..n][1..];
      }
    } else {
      TokensOf(s[1..]);
      StartsBlankTokens(s[1..]);
      assert Tokens(s)[1..] == Tokens(s[1..]);
    }
  }

  lemma FlattenStart(ts: seq<Token>)
    requires StartsBlank(ts)
    ensures Flatten(ts) == "" || IsBlank(Flatten(ts)[0])
  {
  }

  lemma {:induction false} SpanOf(a: string, b: string)
    requires NoBlank(a) && (b == "" || IsBlank(b[0]))
    ensures Span(a + b) == |a|
  {
    if a == "" {
      assert a + b == b;
    } else {
      assert (a + b)[1..] == a[1..] + b;
      SpanOf(a[1..], b);
    }
  }

  lemma MatchEnds(m: string, rest: string)
    requires IsMatch(m) && (rest == "" || IsBlank(rest[0]))
    ensures Span((m + rest)[1..]) == |m| - 1 && (m + rest)[..|m|] == m && (m + rest)[|m|..] == rest
  {
    SpanOf(m[1..], rest);
    assert (m + rest)[1..] == m[1..] + rest;
  }

  lemma MatchFirst(m: string, rest: string)
    requires IsMatch(m) && (rest == "" || IsBlank(rest[0]))
    ensures Tokens(m + rest) == [Match(m)] + Tokens(rest)
  {
    MatchEnds(m, rest);
  }

  lemma MatchReplaced(w: Words, t: string, m: string, rest: string)
    requires IsMatch(m) && (rest == "" || IsBlank(rest[0]))
    ensures ReplaceAll(w, m + rest, t) == Expand(w, t, m) + ReplaceAll(w, rest, t)
  {
    MatchEnds(m, rest);
  }

  lemma TextFirst(c: char, rest: string)
    requires c == '@' ==> rest == "" || IsBlank(rest[0])
    ensures Tokens([c] + rest) == [Text(c)] + Tokens(rest)
  {
    assert ([c] + rest)[1..] == rest;
  }

  lemma TextReplaced(w: Words, t: string, c: char, rest: string)
    requires c == '@' ==> rest == "" || IsBlank(rest[0])
    ensures ReplaceAll(w, [c] + rest, t) == [c] + ReplaceAll(w, rest, t)
  {
    assert ([c] + rest)[1..] == rest;
  }

  /** There is no other canonical way to cut a text. */
  lemma {:induction false} TokensUnique(ts: seq<Token>)
    requires Canonical(ts)
    ensures Tokens(Flatten(ts)) == ts
  {
    if ts != [] {
      var rest := Flatten(ts[1..]);
      TokensUnique(ts[1..]);
      match ts[0]
      case Text(c) =>
        if c == '@' {
          FlattenStart(ts[1..]);
        }
        TextFirst(c, rest);
      case Match(s) =>
        FlattenStart(ts[1..]);
        MatchFirst(s, rest);
    }
  }

  // ---------- masking, token by token ----------

  function MaskToken(host: string, t: Token): Token {
    if t.Match? then Match("@" + host) else t
  }

  function MaskTokens(host: string, ts: seq<Token>): (r: seq<Token>)
    ensures |r| == |ts|
    ensures forall i :: 0 <= i < |ts| ==> r[i] == MaskToken(host, ts[i])
  {
    if ts == [] then [] else [MaskToken(host, ts[0])] + MaskTokens(host, ts[1..])
  }

  lemma {:induction false} MaskedCanonical(host: string, ts: seq<Token>)
    requires host != "" && NoBlank(host) && Canonical(ts)
    ensures Canonical(MaskTokens(host, ts))
  {
    if ts != [] {
      MaskedCanonical(host, ts[1..]);
      assert MaskTokens(host, ts)[1..] == MaskTokens(host, ts[1..]);
    }
  }

  lemma {:induction false} MaskIsTokenwise(w: Words, host: string, ts: seq<Token>)
    requires Inert(w, "@" + host) && Canonical(ts)
    ensures Mask(w, host, Flatten(ts)) == Flatten(MaskTokens(host, ts))
  {
    if ts != [] {
      var rest := Flatten(ts[1..]);
      MaskIsTokenwise(w, host, ts[1..]);
      assert MaskTokens(host, ts)[1..] == MaskTokens(host, ts[1..]);
      match ts[0]
      case Text(c) =>
        if c == '@' {
          FlattenStart(ts[1..]);
        }
        TextReplaced(w, "@" + host, c, rest);
      case Match(s) =>
        FlattenStart(ts[1..]);
        MatchReplaced(w, "@" + host, s, rest);
        InertExpands(w, "@" + host, s);
    }
  }

  lemma InertHost(w: Words, host: string)
    ensures Inert(w, "@" + host) <==> Inert(w, host)
  {
    InertTail(w, "@" + host);
    assert ("@" + host)[1..] == host;
  }

  /**
   The masked text has the same tokens, in the same places, except that every match has become
   "@" + host: text outside matches is unchanged, and the new matches end at a blank or at the end.
   */
  lemma MaskedTokens(w: Words, host: string, s: string)
    requires host != "" && NoBlank(host) && Inert(w, host)
    ensures Tokens(Mask(w, host, s)) == MaskTokens(host, Tokens(s))
  {
    InertHost(w, host);
    TokensOf(s);
    MaskIsTokenwise(w, host, Tokens(s));
    MaskedCanonical(host, Tokens(s));
    TokensUnique(MaskTokens(host, Tokens(s)));
  }

  lemma MaskIdempotent(w: Words, host: string, s: string)
    requires host != "" && NoBlank(host) && Inert(w, host)
    ensures Mask(w, host, Mask(w, host, s)) == Mask(w, host, s)
  {
    MaskedTokens(w, host, s);
    MaskedTokens(w, host, Mask(w, host, s));
    TokensOf(Mask(w, host, Mask(w, host, s)));
    TokensOf(Mask(w, host, s));
    assert MaskTokens(host, MaskTokens(host, Tokens(s))) == MaskTokens(host, Tokens(s));
  }

  // ---------- exactly when it works ----------

  /** Masking with `host` turns every match of every text into "@" + host and changes nothing else. */
  ghost predicate MasksFaithfully(w: Words, host: string) {
    forall s :: Tokens(Mask(w, host, s)) == MaskTokens(host, Tokens(s))
  }

  lemma OneMatch(w: Words, t: string, m: string)
    requires IsMatch(m)
    ensures Tokens(m) == [Match(m)] && ReplaceAll(w, m, t) == Expand(w, t, m)
  {
    MatchFirst(m, "");
    MatchReplaced(w, t, m, "");
    assert m + "" == m && Expand(w, t, m) + "" == Expand(w, t, m);
  }

  /** A text that masking turns into the one token "@" + host. */
  lemma MaskedMatch(w: Words, host: string, m: string)
    requires MasksFaithfully(w, host) && IsMatch(m)
    ensures Expand(w, "@" + host, m) == "@" + host && IsMatch("@" + host)
  {
    OneMatch(w, "@" + host, m);
    var r := Mask(w, host, m);
    assert Tokens(r) == MaskTokens(host, Tokens(m)) == [Match("@" + host)];
    TokensOf(r);
    assert Flatten([Match("@" + host)]) == "@" + host by {
      assert [Match("@" + host)][1..] == [];
    }
  }

  function Long(n: nat): (s: string)
    ensures |s| == n + 2 && IsMatch(s)
  {
    seq(n + 2, i => if i == 0 then '@' else 'a')
  }

  lemma FaithfulHost(w: Words, host: string)
    requires MasksFaithfully(w, host)
    ensures host != "" && NoBlank(host) && Inert(w, host)
  {
    hide MasksFaithfully, Inert, Zeros, Expand;
    var t := "@" + host;
    var m := Long(|t|);
    MaskedMatch(w, host, m);
    assert forall k :: 0 <= k < |host| ==> host[k] == t[k + 1];
    ExpandedSize(w, t, m);
    Multiple(Zeros(w, t), |m|);
    InertHost(w, host);
  }

  lemma Multiple(k: nat, n: nat)
    ensures k == 0 || k * n >= n
  {
  }

  /** It works exactly for the hosts that are not empty, have no blank and no special '$'. */
  lemma MasksFaithfullyExactlyWhen(w: Words, host: string)
    ensures MasksFaithfully(w, host) <==> host != "" && NoBlank(host) && Inert(w, host)
  {
    hide Inert;
    if host != "" && NoBlank(host) && Inert(w, host) {
      forall s ensures Tokens(Mask(w, host, s)) == MaskTokens(host, Tokens(s)) {
        MaskedTokens(w, host, s);
      }
    }
    if MasksFaithfully(w, host) {
      FaithfulHost(w, host);
    }
  }

  /** A '$' before a letter of any alphabet names a group that does not exist, so the host is lost. */
  lemma NamesAreSpecial(w: Words, c: char)
    requires w(c)
    ensures !MasksFaithfully(w, ['$', c])
  {
    var host := ['$', c];
    MasksFaithfullyExactlyWhen(w, host);
    assert host[1..] == [c];
    assert !w('{');
    assert WordSpan(w, [c]) > 0;
    assert !InertAt(w, host, 0);
  }

  lemma DollarZero(w: Words, m: string)
    ensures Expand(w, "@$0", m) == "@" + m
  {
    assert "@$0"[1..] == "$0" && "$0"[1..] == "0" && "0"[1..] == "";
    assert WordSpan(w, "0") == 1 && "0"[..1] == "0";
    assert Extract(w, "0") == Some(("0", ""));
    assert Expand(w, "$0", m) == m + "";
  }

  /** With "$0" for a host the old text stays in the message, and each masking adds to it. */
  lemma DollarZeroKeepsTheHost(w: Words, m: string)
    requires IsMatch(m)
    ensures Mask(w, "$0", m) == "@" + m && Mask(w, "$0", Mask(w, "$0", m)) == "@@" + m
  {
    hide Expand;
    assert "@" + "$0" == "@$0";
    DollarZero(w, m);
    DollarZero(w, "@" + m);
    OneMatch(w, "@$0", m);
    OneMatch(w, "@$0", "@" + m);
    assert "@" + ("@" + m) == "@@" + m;
  }

  // ---------- the callbacks ----------

  class Message {
    var prefix: string
    var trailing: string

    constructor (prefix: string, trailing: string)
      ensures this.prefix == prefix && this.trailing == trailing
    {
      this.prefix, this.trailing := prefix, trailing;
    }

    method OnJoin(w: Words, i2pHost: string)
      modifies this`prefix
      ensures prefix == if i2pHost == "" then old(prefix) else Mask(w, i2pHost, old(prefix))
    {
      if i2pHost != "" && prefix != "" {
        prefix := ReplaceAll(w, prefix, "@" + i2pHost);
      }
    }

    method OnWhois(w: Words, i2pHost: string)
      modifies this`trailing
      ensures trailing == if i2pHost == "" then old(trailing) else Mask(w, i2pHost, old(trailing))
    {
      if i2pHost != "" && trailing != "" {
        trailing := ReplaceAll(w, trailing, "@" + i2pHost);
      }
    }
  }
}
