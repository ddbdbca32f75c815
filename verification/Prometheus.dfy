/**
 The Prometheus text exposition (lib/metrics/handler.go), as in "Text-based format" of the Prometheus
 exposition formats, section "Text format details": escaped label values, one HELP and one
 TYPE line and one sample per tunnel for each family.
 */
module Prometheus {
  import opened Wrappers
  import opened Text

  // ---------- label values ----------

  /** escapeLabelValue: three passes over the whole string, backslashes first. */
  function Escape(s: string): string {
    ReplaceChar(ReplaceChar(ReplaceChar(s, '\\', "\\\\"), '\"', "\\\""), '\n', "\\n")
  }

  /** The escape of one character, as the text format defines it. */
  function EncodeChar(c: char): string {
    if c == '\\' then "\\\\" else if c == '\"' then "\\\"" else if c == '\n' then "\\n" else [c]
  }

  function Encode(s: string): string {
    if s == "" then "" else EncodeChar(s[0]) + Encode(s[1..])
  }

  lemma EscapeConcat(a: string, b: string)
    ensures Escape(a + b) == Escape(a) + Escape(b)
  {
    ReplaceConcat(a, b, '\\', "\\\\");
    var a1, b1 := ReplaceChar(a, '\\', "\\\\"), ReplaceChar(b, '\\', "\\\\");
    ReplaceConcat(a1, b1, '\"', "\\\"");
    ReplaceConcat(ReplaceChar(a1, '\"', "\\\""), ReplaceChar(b1, '\"', "\\\""), '\n', "\\n");
  }

  lemma ReplaceTwo(x: char, y: char, c: char, sub: string)
    requires x != c && y != c
    ensures ReplaceChar([x, y], c, sub) == [x, y]
  {
    assert [x, y][1..] == [y];
    ReplaceOne(y, c, sub);
  }

  lemma EscapeChar(c: char)
    ensures Escape([c]) == EncodeChar(c)
  {
    ReplaceOne(c, '\\', "\\\\");
    ReplaceOne(c, '\"', "\\\"");
    ReplaceOne(c, '\n', "\\n");
    ReplaceTwo('\\', '\\', '\"', "\\\"");
    ReplaceTwo('\\', '\\', '\n', "\\n");
    ReplaceTwo('\\', '\"', '\n', "\\n");
  }

  /** Three passes over the string are one pass of the per-character encoder. */
  lemma {:induction false} EscapeIsEncode(s: string)
    ensures Escape(s) == Encode(s)
  {
    if s != "" {
      assert s == [s[0]] + s[1..];
      EscapeConcat([s[0]], s[1..]);
      EscapeChar(s[0]);
      EscapeIsEncode(s[1..]);
    }
  }

  // ---------- reading labels back ----------

  /** A label value up to its closing quote, and what follows it; None when the text is malformed. */
  function ScanValue(s: string): (r: Option<(string, string)>)
    ensures r.Some? ==> |r.value.1| < |s|
  {
    if s == "" then None
    else if s[0] == '\"' then Some(("", s[1..]))
    else if s[0] == '\\' then
      if |s| < 2 || s[1] !in {'\\', '\"', 'n'} then None
      else
        match ScanValue(s[2..])
        case None => None
        case Some((v, rest)) => Some(([if s[1] == 'n' then '\n' else s[1]] + v, rest))
    else
      match ScanValue(s[1..])
      case None => None
      case Some((v, rest)) => Some(([s[0]] + v, rest))
  }

  lemma ScanStep(c: char, t: string, v: string, rest: string)
    requires ScanValue(t) == Some((v, rest))
    ensures ScanValue(EncodeChar(c) + t) == Some(([c] + v, rest))
  {
    var s := EncodeChar(c) + t;
    if |EncodeChar(c)| == 2 {
      assert s[2..] == t;
    } else {
      assert s[1..] == t;
    }
  }

  /** A reader of escaped values recovers every label value, whatever follows the closing quote. */
  lemma {:induction false} ScanEncoded(v: string, rest: string)
    ensures ScanValue(Encode(v) + "\"" + rest) == Some((v, rest))
  {
    if v == "" {
      assert (Encode(v) + "\"" + rest)[1..] == rest;
    } else {
      ScanEncoded(v[1..], rest);
      var t := Encode(v[1..]) + "\"" + rest;
      ScanStep(v[0], t, v[1..], rest);
      assert Encode(v) + "\"" + rest == EncodeChar(v[0]) + t;
      assert v == [v[0]] + v[1..];
    }
  }

  lemma EscapeHasLeftInverse(v: string)
    ensures ScanValue(Escape(v) + "\"") == Some((v, ""))
  {
    EscapeIsEncode(v);
    ScanEncoded(v, "");
    assert Encode(v) + "\"" + "" == Encode(v) + "\"";
  }

  /** formatLabels. */
  function FormatLabels(name: string, id: string, kind: string): string {
    "name=\"" + Escape(name) + "\",id=\"" + Escape(id) + "\",type=\"" + Escape(kind) + "\""
  }

  function Expect(s: string, word: string): Option<string> {
    if HasPrefix(s, word) then Some(s[|word|..]) else None
  }

  function ScanLabel(s: string, word: string): Option<(string, string)> {
    match Expect(s, word)
    case None => None
    case Some(t) => ScanValue(t)
  }

  /** A reader for the three labels. */
  function ParseLabels(s: string): Option<(string, string, string)> {
    match ScanLabel(s, "name=\"")
    case None => None
    case Some((name, s1)) =>
      match ScanLabel(s1, ",id=\"")
      case None => None
      case Some((id, s2)) =>
        match ScanLabel(s2, ",type=\"")
        case Some((kind, "")) => Some((name, id, kind))
        case _ => None
  }

  lemma ScanLabelBack(word: string, v: string, rest: string)
    ensures ScanLabel(word + (Escape(v) + "\"" + rest), word) == Some((v, rest))
  {
    var t := Escape(v) + "\"" + rest;
    assert (word + t)[..|word|] == word && (word + t)[|word|..] == t;
    EscapeIsEncode(v);
    ScanEncoded(v, rest);
  }

  /** Formatted labels can be read back, for all names, identifiers and types. */
  lemma LabelsReadBack(name: string, id: string, kind: string)
    ensures ParseLabels(FormatLabels(name, id, kind)) == Some((name, id, kind))
  {
    var s2 := ",type=\"" + (Escape(kind) + "\"" + "");
    var s1 := ",id=\"" + (Escape(id) + "\"" + s2);
    var s0 := "name=\"" + (Escape(name) + "\"" + s1);
    ScanLabelBack(",type=\"", kind, "");
    ScanLabelBack(",id=\"", id, s2);
    ScanLabelBack("name=\"", name, s1);
    FormatSplits(Escape(name), Escape(id), Escape(kind));
    assert FormatLabels(name, id, kind) == s0;
  }

  lemma FormatSplits(n: string, i: string, k: string)
    ensures "name=\"" + n + "\",id=\"" + i + "\",type=\"" + k + "\""
      == "name=\"" + (n + "\"" + (",id=\"" + (i + "\"" + (",type=\"" + (k + "\"" + "")))))
  {
    var t := ",type=\"" + (k + "\"" + "");
    assert "\",type=\"" + k + "\"" == "\"" + t;
    assert "\",id=\"" + i + "\"" + t == "\"" + (",id=\"" + (i + "\"" + t));
  }

  /** Different tunnels never share a label set. */
  lemma LabelsAreInjective(n1: string, i1: string, k1: string, n2: string, i2: string, k2: string)
    requires FormatLabels(n1, i1, k1) == FormatLabels(n2, i2, k2)
    ensures n1 == n2 && i1 == i2 && k1 == k2
  {
    LabelsReadBack(n1, i1, k1);
    LabelsReadBack(n2, i2, k2);
  }

  // ---------- the exposition ----------

  /** MetricSnapshot; the uptime is in whole milliseconds. */
  datatype Snapshot = Snapshot(
    name: string, id: string, kind: string,
    accepted: int, failed: int, bytesIn: int, bytesOut: int, errors: int, rateLimitHits: int, filterBlocks: int,
    active: int, uptimeMillis: int)

  datatype Family = Family(name: string, help: string, typ: string)

  const ACCEPTED := Family("i2ptunnel_connections_accepted_total", "Total accepted connections", "counter")
  const FAILED := Family("i2ptunnel_connections_failed_total", "Total failed connection attempts", "counter")
  const BYTES_IN := Family("i2ptunnel_bytes_received_total", "Total bytes received", "counter")
  const BYTES_OUT := Family("i2ptunnel_bytes_sent_total", "Total bytes sent", "counter")
  const ERRORS := Family("i2ptunnel_errors_total", "Total errors encountered", "counter")
  const RATE_LIMIT_HITS := Family("i2ptunnel_rate_limit_hits_total", "Total rate limit rejections", "counter")
  const FILTER_BLOCKS := Family("i2ptunnel_filter_blocks_total", "Total filter blocks", "counter")
  const ACTIVE := Family("i2ptunnel_active_connections", "Currently active connections", "gauge")
  const UPTIME := Family("i2ptunnel_uptime_seconds", "Tunnel uptime in seconds", "gauge")

  /** counterMetrics, gaugeMetrics, and the uptime family that is written last. */
  const FAMILIES: seq<Family> :=
    [ACCEPTED, FAILED, BYTES_IN, BYTES_OUT, ERRORS, RATE_LIMIT_HITS, FILTER_BLOCKS, ACTIVE, UPTIME]

  /** "%.3f" of a number of milliseconds. */
  function Millis(n: int): string {
    var m := if n < 0 then -n else n;
    (if n < 0 then "-" else "") + PrintNat(m / 1000) + "."
    + [DigitChar(m / 100 % 10), DigitChar(m / 10 % 10), DigitChar(m % 10)]
  }

  function Counters(s: Snapshot): (r: seq<int>)
    ensures |r| == 8
  {
    [s.accepted, s.failed, s.bytesIn, s.bytesOut, s.errors, s.rateLimitHits, s.filterBlocks, s.active]
  }

  /** The sample of snapshot `s` in family number `f`, as printed. */
  function Sample(f: nat, s: Snapshot): string
    requires f < 9
  {
    if f == 8 then Millis(s.uptimeMillis)
    else Itoa(Counters(s)[f])
  }

  function HelpLine(m: Family): string {
    "# HELP " + m.name + " " + m.help
  }

  function TypeLine(m: Family): string {
    "# TYPE " + m.name + " " + m.typ
  }

  function SampleLine(m: Family, f: nat, s: Snapshot): string
    requires f < 9
  {
    m.name + "{" + FormatLabels(s.name, s.id, s.kind) + "} " + Sample(f, s)
  }

  function SampleLines(m: Family, f: nat, snapshots: seq<Snapshot>): (r: seq<string>)
    requires f < 9
    ensures |r| == |snapshots|
  {
    if snapshots == [] then []
    else SampleLines(m, f, snapshots[..|snapshots| - 1]) + [SampleLine(m, f, snapshots[|snapshots| - 1])]
  }

  function FamilyLines(m: Family, f: nat, snapshots: seq<Snapshot>): (r: seq<string>)
    requires f < 9
    ensures |r| == 2 + |snapshots|
  {
    [HelpLine(m), TypeLine(m)] + SampleLines(m, f, snapshots)
  }

  /** The lines of the first `n` families of `ms`. */
  function Lines(ms: seq<Family>, n: nat, snapshots: seq<Snapshot>): (r: seq<string>)
    requires n <= |ms| == 9
  {
    if n == 0 then [] else Lines(ms, n - 1, snapshots) + FamilyLines(ms[n - 1], n - 1, snapshots)
  }

  /** Every line with its newline. */
  function Unlines(lines: seq<string>): string {
    if lines == [] then "" else Unlines(lines[..|lines| - 1]) + lines[|lines| - 1] + "\n"
  }

  function Exposition(ms: seq<Family>, snapshots: seq<Snapshot>): string
    requires |ms| == 9
  {
    Unlines(Lines(ms, 9, snapshots))
  }

  // ---------- the writers ----------

  /**
   An io.Writer. Its `budget` is how many more characters it takes: the write that exceeds it keeps
   what fits and returns an error.
   */
  class Writer {
    var out: string
    var budget: Option<nat>

    constructor (budget: Option<nat>)
      ensures out == "" && this.budget == budget
    {
      out, this.budget := "", budget;
    }

    method Write(text: string) returns (ok: bool)
      modifies this
      ensures Wrote(old(out), old(budget), text, ok, out, budget)
    {
      if budget == None || |text| <= budget.value {
        out := out + text;
        budget := if budget == None then None else Some(budget.value - |text|);
        return true;
      }
      out := out + text[..budget.value];
      budget := Some(0);
      return false;
    }
  }

  /**
   Writing `text` turned the output `was` and the budget `had` into `out` and `left`: it succeeds exactly when
   the budget suffices, and otherwise the text is cut at the budget.
   */
  ghost predicate Wrote(was: string, had: Option<nat>, text: string, ok: bool, out: string, left: Option<nat>) {
    && (ok <==> had == None || |text| <= had.value)
    && out == was + (if ok then text else text[..had.value])
    && left == (if had == None then None else if ok then Some(had.value - |text|) else Some(0))
  }

  lemma WroteNothing(was: string, had: Option<nat>)
    ensures Wrote(was, had, "", true, was, had)
  {
    assert was + "" == was;
  }

  /** Two writes of which the first succeeds are one write of both texts. */
  lemma WroteBoth(was: string, had: Option<nat>, a: string, mid: string, rest: Option<nat>, b: string, ok: bool,
                  out: string, left: Option<nat>)
    requires Wrote(was, had, a, true, mid, rest) && Wrote(mid, rest, b, ok, out, left)
    ensures Wrote(was, had, a + b, ok, out, left)
  {
    if ok {
      assert (was + a) + b == was + (a + b);
    } else {
      assert (a + b)[..had.value] == a + b[..rest.value];
      assert (was + a) + b[..rest.value] == was + (a + b[..rest.value]);
    }
  }

  /** A write that fails fails as well, with the same output, when more text follows. */
  lemma WroteLess(was: string, had: Option<nat>, a: string, all: string, out: string, left: Option<nat>)
    requires Wrote(was, had, a, false, out, left) && a <= all
    ensures Wrote(was, had, all, false, out, left)
  {
    assert a[..had.value] == all[..had.value];
  }

  lemma UnlinesAppend(lines: seq<string>, line: string)
    ensures Unlines(lines + [line]) == Unlines(lines) + line + "\n"
  {
    assert (lines + [line])[..|lines|] == lines;
  }

  lemma Regroup(a: string, b: string, c: string, d: string)
    ensures (a + b) + c + d == a + (b + c + d)
  {
  }

  lemma {:induction false} UnlinesConcat(a: seq<string>, b: seq<string>)
    ensures Unlines(a + b) == Unlines(a) + Unlines(b)
  {
    if b == [] {
      assert a + b == a;
    } else {
      var c := b[..|b| - 1];
      UnlinesConcat(a, c);
      assert (a + b)[..|a + b| - 1] == a + c;
      Regroup(Unlines(a), Unlines(c), b[|b| - 1], "\n");
    }
  }

  /** Writes HELP, TYPE and one sample per snapshot; stops at the first failing write. */
  method WriteMetricFamily(w: Writer, m: Family, f: nat, snapshots: seq<Snapshot>) returns (ok: bool)
    requires f < 9
    modifies w
    ensures Wrote(old(w.out), old(w.budget), Unlines(FamilyLines(m, f, snapshots)), ok, w.out, w.budget)
  {
    hide Wrote, Unlines, FamilyLines, FormatLabels, HelpLine, TypeLine;
    ghost var all := FamilyLines(m, f, snapshots);
    FamilyHead(m, f, snapshots);
    ghost var was, had := w.out, w.budget;
    PrefixLines(all, 0);
    WroteNothing(was, had);
    ok := WriteLine(w, HelpLine(m), was, had, all, 0);
    if !ok { return; }
    ok := WriteLine(w, TypeLine(m), was, had, all, 1);
    if !ok { return; }
    var i := 0;
    while i < |snapshots|
      invariant i <= |snapshots|
      invariant Wrote(was, had, Unlines(all[..i + 2]), true, w.out, w.budget)
    {
      SampleAt(m, f, snapshots, i);
      var labels := FormatLabels(snapshots[i].name, snapshots[i].id, snapshots[i].kind);
      ok := WriteLine(w, m.name + "{" + labels + "} " + Sample(f, snapshots[i]), was, had, all, i + 2);
      if !ok { return; }
      i := i + 1;
    }
    assert all[..i + 2] == all;
    return true;
  }

  /** One Fprintf of a whole line, number `k` of the lines to be written after `was`. */
  method WriteLine(w: Writer, line: string, ghost was: string, ghost had: Option<nat>, ghost all: seq<string>,
                   ghost k: nat)
    returns (ok: bool)
    requires k < |all| && line == all[k] && Wrote(was, had, Unlines(all[..k]), true, w.out, w.budget)
    modifies w
    ensures ok ==> Wrote(was, had, Unlines(all[..k + 1]), true, w.out, w.budget)
    ensures !ok ==> Wrote(was, had, Unlines(all), false, w.out, w.budget)
  {
    hide Wrote, Unlines;
    PrefixLines(all, k);
    ghost var mid, rest := w.out, w.budget;
    ok := w.Write(line + "\n");
    WroteBoth(was, had, Unlines(all[..k]), mid, rest, line + "\n", ok, w.out, w.budget);
    if !ok {
      WroteLess(was, had, Unlines(all[..k]) + (line + "\n"), Unlines(all), w.out, w.budget);
    }
  }

  lemma Associates(a: string, b: string, c: string)
    ensures a + b + c == a + (b + c)
  {
  }

  lemma StartsWith(a: string, b: string)
    ensures a <= a + b
  {
  }

  lemma UnlinesNone(lines: seq<string>)
    ensures Unlines(lines[..0]) == ""
  {
  }

  lemma OneMoreLine(lines: seq<string>, k: nat)
    requires k < |lines|
    ensures Unlines(lines[..k + 1]) == Unlines(lines[..k]) + (lines[k] + "\n")
  {
    hide Unlines;
    var done, line := lines[..k], lines[k];
    assert lines[..k + 1] == done + [line];
    UnlinesAppend(done, line);
    Associates(Unlines(done), line, "\n");
  }

  lemma FirstLines(lines: seq<string>, k: nat)
    requires k <= |lines|
    ensures Unlines(lines[..k]) <= Unlines(lines)
  {
    hide Unlines;
    var done, rest := lines[..k], lines[k..];
    assert lines == done + rest;
    UnlinesConcat(done, rest);
    StartsWith(Unlines(done), Unlines(rest));
  }

  /** The text of the first `k` lines, one more line, and all of them. */
  lemma PrefixLines(lines: seq<string>, k: nat)
    requires k < |lines|
    ensures Unlines(lines[..k + 1]) == Unlines(lines[..k]) + (lines[k] + "\n")
    ensures Unlines(lines[..k]) + (lines[k] + "\n") <= Unlines(lines)
    ensures Unlines(lines[..0]) == ""
  {
    UnlinesNone(lines);
    OneMoreLine(lines, k);
    FirstLines(lines, k + 1);
  }

  lemma {:induction false} SampleAt(m: Family, f: nat, snapshots: seq<Snapshot>, i: nat)
    requires f < 9 && i < |snapshots|
    ensures SampleLines(m, f, snapshots)[i] == SampleLine(m, f, snapshots[i])
    ensures FamilyLines(m, f, snapshots)[i + 2] == SampleLine(m, f, snapshots[i])
  {
    if i < |snapshots| - 1 {
      SampleAt(m, f, snapshots[..|snapshots| - 1], i);
    }
  }

  /** All families in order. */
  method WritePrometheusMetrics(w: Writer, ms: seq<Family>, snapshots: seq<Snapshot>) returns (ok: bool)
    requires |ms| == 9
    modifies w
    ensures Wrote(old(w.out), old(w.budget), Exposition(ms, snapshots), ok, w.out, w.budget)
  {
    hide Wrote, Unlines, FamilyLines;
    ghost var was, had := w.out, w.budget;
    NoLines(ms, snapshots);
    WroteNothing(was, had);
    var f := 0;
    while f < 9
      invariant f <= 9
      invariant Wrote(was, had, Unlines(Lines(ms, f, snapshots)), true, w.out, w.budget)
    {
      ghost var mid, rest := w.out, w.budget;
      ghost var family := Unlines(FamilyLines(ms[f], f, snapshots));
      ok := WriteMetricFamily(w, ms[f], f, snapshots);
      FamilyEnds(ms, f, snapshots);
      WroteBoth(was, had, Unlines(Lines(ms, f, snapshots)), mid, rest, family, ok, w.out, w.budget);
      if !ok {
        WroteLess(was, had, Unlines(Lines(ms, f + 1, snapshots)), Exposition(ms, snapshots), w.out, w.budget);
        return;
      }
      f := f + 1;
    }
    return true;
  }

  lemma NoLines(ms: seq<Family>, snapshots: seq<Snapshot>)
    requires |ms| == 9
    ensures Unlines(Lines(ms, 0, snapshots)) == ""
  {
  }

  lemma FamilyEnds(ms: seq<Family>, f: nat, snapshots: seq<Snapshot>)
    requires f < |ms| == 9
    ensures Unlines(Lines(ms, f, snapshots)) + Unlines(FamilyLines(ms[f], f, snapshots))
      == Unlines(Lines(ms, f + 1, snapshots))
    ensures Unlines(Lines(ms, f + 1, snapshots)) <= Exposition(ms, snapshots)
  {
    hide Unlines, FamilyLines;
    UnlinesConcat(Lines(ms, f, snapshots), FamilyLines(ms[f], f, snapshots));
    LinesPrefix(ms, f + 1, 9, snapshots);
  }

  lemma {:induction false} LinesPrefix(ms: seq<Family>, n: nat, m: nat, snapshots: seq<Snapshot>)
    requires n <= m <= |ms| == 9
    ensures Unlines(Lines(ms, n, snapshots)) <= Unlines(Lines(ms, m, snapshots))
  {
    if n < m {
      LinesPrefix(ms, n, m - 1, snapshots);
      UnlinesConcat(Lines(ms, m - 1, snapshots), FamilyLines(ms[m - 1], m - 1, snapshots));
    }
  }

  // ---------- line structure ----------

  predicate OneLine(s: string) {
    forall i :: 0 <= i < |s| ==> s[i] != '\n'
  }

  lemma {:induction false} EncodeIsOneLine(s: string)
    ensures OneLine(Encode(s))
  {
    if s != "" {
      EncodeIsOneLine(s[1..]);
    }
  }

  lemma DigitsAreOneLine(s: string)
    requires AllDigits(s)
    ensures OneLine(s)
  {
  }

  lemma ItoaIsOneLine(n: int)
    ensures OneLine(Itoa(n))
  {
    var s := Itoa(n);
    DigitsAreOneLine(s[1..]);
    assert s == [s[0]] + s[1..];
  }

  lemma SampleIsOneLine(f: nat, s: Snapshot)
    requires f < 9
    ensures OneLine(Sample(f, s))
  {
    if f < 8 {
      ItoaIsOneLine(Counters(s)[f]);
    } else {
      var m := if s.uptimeMillis < 0 then -s.uptimeMillis else s.uptimeMillis;
      DigitsAreOneLine(PrintNat(m / 1000));
    }
  }

  lemma LabelsAreOneLine(name: string, id: string, kind: string)
    ensures OneLine(FormatLabels(name, id, kind))
  {
    EscapeIsEncode(name);
    EscapeIsEncode(id);
    EscapeIsEncode(kind);
    EncodeIsOneLine(name);
    EncodeIsOneLine(id);
    EncodeIsOneLine(kind);
    hide Escape, Encode;
    LabelTextIsOneLine(Escape(name), Escape(id), Escape(kind));
  }

  lemma LabelTextIsOneLine(a: string, b: string, c: string)
    requires OneLine(a) && OneLine(b) && OneLine(c)
    ensures OneLine("name=\"" + a + "\",id=\"" + b + "\",type=\"" + c + "\"")
  {
  }

  /** A family's name as it may stand before the labels. */
  predicate IsFamilyName(name: string) {
    name != "" && name[0] != '#' && forall i :: 0 <= i < |name| ==> name[i] != '{'
  }

  /** The texts of a family contain no newline, and its name can stand before labels. */
  predicate Plain(m: Family) {
    OneLine(m.name) && OneLine(m.help) && OneLine(m.typ) && IsFamilyName(m.name)
  }

  // Reading a literal character by character is costly, so each family has a lemma of its own.

  lemma AcceptedIsPlain()
    ensures Plain(ACCEPTED)
  {
  }

  lemma FailedIsPlain()
    ensures Plain(FAILED)
  {
  }

  lemma BytesInIsPlain()
    ensures Plain(BYTES_IN)
  {
  }

  lemma BytesOutIsPlain()
    ensures Plain(BYTES_OUT)
  {
  }

  lemma ErrorsIsPlain()
    ensures Plain(ERRORS)
  {
  }

  lemma RateLimitHitsIsPlain()
    ensures Plain(RATE_LIMIT_HITS)
  {
  }

  lemma FilterBlocksIsPlain()
    ensures Plain(FILTER_BLOCKS)
  {
  }

  lemma ActiveIsPlain()
    ensures Plain(ACTIVE)
  {
  }

  lemma UptimeIsPlain()
    ensures Plain(UPTIME)
  {
  }

  lemma FamiliesArePlain()
    ensures forall m :: m in FAMILIES ==> Plain(m)
  {
    hide Plain;
    AcceptedIsPlain();
    FailedIsPlain();
    BytesInIsPlain();
    BytesOutIsPlain();
    ErrorsIsPlain();
    RateLimitHitsIsPlain();
    FilterBlocksIsPlain();
    ActiveIsPlain();
    UptimeIsPlain();
  }

  lemma SampleLineIsOneLine(m: Family, f: nat, s: Snapshot)
    requires f < 9 && Plain(m)
    ensures OneLine(SampleLine(m, f, s))
  {
    LabelsAreOneLine(s.name, s.id, s.kind);
    SampleIsOneLine(f, s);
    JoinIsOneLine(m.name, FormatLabels(s.name, s.id, s.kind), Sample(f, s));
  }

  lemma JoinIsOneLine(a: string, b: string, c: string)
    requires OneLine(a) && OneLine(b) && OneLine(c)
    ensures OneLine(a + "{" + b + "} " + c)
  {
  }

  lemma HeadIsOneLine(m: Family)
    requires Plain(m)
    ensures OneLine(HelpLine(m)) && OneLine(TypeLine(m))
  {
  }

  lemma FamilyHead(m: Family, f: nat, snapshots: seq<Snapshot>)
    requires f < 9
    ensures FamilyLines(m, f, snapshots)[0] == HelpLine(m) && FamilyLines(m, f, snapshots)[1] == TypeLine(m)
  {
  }

  lemma FamilyLineIsOneLine(m: Family, f: nat, snapshots: seq<Snapshot>, i: nat)
    requires f < 9 && Plain(m) && i < 2 + |snapshots|
    ensures OneLine(FamilyLines(m, f, snapshots)[i])
  {
    hide HelpLine, TypeLine, SampleLine, SampleLines, FamilyLines, OneLine;
    if i < 2 {
      HeadIsOneLine(m);
      FamilyHead(m, f, snapshots);
    } else {
      SampleAt(m, f, snapshots, i - 2);
      SampleLineIsOneLine(m, f, snapshots[i - 2]);
    }
  }

  lemma FamilyLinesAreLines(m: Family, f: nat, snapshots: seq<Snapshot>)
    requires f < 9 && Plain(m)
    ensures forall i :: 0 <= i < |FamilyLines(m, f, snapshots)| ==> OneLine(FamilyLines(m, f, snapshots)[i])
  {
    hide FamilyLines, OneLine;
    forall i | 0 <= i < |FamilyLines(m, f, snapshots)| ensures OneLine(FamilyLines(m, f, snapshots)[i]) {
      FamilyLineIsOneLine(m, f, snapshots, i);
    }
  }

  lemma {:induction false} LinesAreLines(ms: seq<Family>, n: nat, snapshots: seq<Snapshot>)
    requires n <= |ms| == 9
    requires forall m :: m in ms ==> Plain(m)
    ensures forall i :: 0 <= i < |Lines(ms, n, snapshots)| ==> OneLine(Lines(ms, n, snapshots)[i])
  {
    if n > 0 {
      LinesAreLines(ms, n - 1, snapshots);
      FamilyLinesAreLines(ms[n - 1], n - 1, snapshots);
    }
  }

  lemma NextFamily(ms: seq<Family>, n: nat, snapshots: seq<Snapshot>)
    requires 0 < n <= |ms| == 9
    ensures |Lines(ms, n, snapshots)| == |Lines(ms, n - 1, snapshots)| + (2 + |snapshots|)
  {
    hide FamilyLines;
  }

  lemma OneMoreTime(n: nat, k: nat)
    ensures (n - 1) * k + k == n * k
  {
  }

  lemma {:induction false} LineCount(ms: seq<Family>, n: nat, snapshots: seq<Snapshot>)
    requires n <= |ms| == 9
    ensures |Lines(ms, n, snapshots)| == n * (2 + |snapshots|)
  {
    if n > 0 {
      hide Lines;
      LineCount(ms, n - 1, snapshots);
      NextFamily(ms, n, snapshots);
      OneMoreTime(n, 2 + |snapshots|);
    }
  }

  /** Splitting a text of one-line lines at its newlines gives the lines back. */
  lemma {:induction false} SplitUnlines(lines: seq<string>)
    requires forall i :: 0 <= i < |lines| ==> OneLine(lines[i])
    ensures Split(Unlines(lines), '\n') == lines + [""]
  {
    if lines != [] {
      hide Unlines, Split;
      var rest := lines[1..];
      SplitUnlines(rest);
      UnlinesFirst(lines);
      SplitFirst(lines[0], Unlines(rest));
      FirstAndRest(lines, "");
    }
  }

  lemma FirstAndRest<T>(s: seq<T>, x: T)
    requires s != []
    ensures s + [x] == [s[0]] + (s[1..] + [x])
  {
  }

  lemma UnlinesFirst(lines: seq<string>)
    requires lines != []
    ensures Unlines(lines) == lines[0] + ['\n'] + Unlines(lines[1..])
  {
    assert lines == [lines[0]] + lines[1..];
    UnlinesConcat([lines[0]], lines[1..]);
    assert [lines[0]][..0] == [];
  }

  lemma SplitFirst(line: string, rest: string)
    requires OneLine(line)
    ensures Split(line + ['\n'] + rest, '\n') == [line] + Split(rest, '\n')
  {
    var text := line + ['\n'] + rest;
    IndexUnique(line, '\n', rest);
    assert text[..|line|] == line && text[|line| + 1..] == rest;
  }

  /**
   Whatever the names, identifiers and types contain, the exposition splits at its newlines into
   exactly 9 * (2 + number of snapshots) lines, the expected ones, each terminated.
   */
  lemma ExpositionLines(snapshots: seq<Snapshot>)
    ensures Split(Exposition(FAMILIES, snapshots), '\n') == Lines(FAMILIES, 9, snapshots) + [""]
    ensures |Lines(FAMILIES, 9, snapshots)| == 9 * (2 + |snapshots|)
  {
    FamiliesArePlain();
    LinesAreLines(FAMILIES, 9, snapshots);
    LineCount(FAMILIES, 9, snapshots);
    SplitUnlines(Lines(FAMILIES, 9, snapshots));
  }

  /** Where a family's own lines stand among all lines. */
  lemma {:induction false} FamilyAt(ms: seq<Family>, n: nat, snapshots: seq<Snapshot>, f: nat, k: nat)
    requires f < n <= |ms| == 9 && k < 2 + |snapshots|
    ensures var at := f * (2 + |snapshots|) + k;
      at < |Lines(ms, n, snapshots)| && Lines(ms, n, snapshots)[at] == FamilyLines(ms[f], f, snapshots)[k]
  {
    hide FamilyLines, Lines;
    LineCount(ms, n - 1, snapshots);
    NextFamily(ms, n, snapshots);
    LinesStep(ms, n, snapshots);
    if f < n - 1 {
      FamilyAt(ms, n - 1, snapshots, f, k);
    }
  }

  lemma LinesStep(ms: seq<Family>, n: nat, snapshots: seq<Snapshot>)
    requires 0 < n <= |ms| == 9
    ensures Lines(ms, n, snapshots) ==
      Lines(ms, n - 1, snapshots) + FamilyLines(ms[n - 1], n - 1, snapshots)
  {
    hide FamilyLines;
  }

  lemma HeadAt(ms: seq<Family>, snapshots: seq<Snapshot>, f: nat)
    requires f < 9 == |ms|
    ensures var at := f * (2 + |snapshots|);
      && at + 1 < |Lines(ms, 9, snapshots)|
      && Lines(ms, 9, snapshots)[at] == HelpLine(ms[f])
      && Lines(ms, 9, snapshots)[at + 1] == TypeLine(ms[f])
  {
    hide Lines, FamilyLines, HelpLine, TypeLine;
    FamilyAt(ms, 9, snapshots, f, 0);
    FamilyAt(ms, 9, snapshots, f, 1);
    FamilyHead(ms[f], f, snapshots);
  }

  lemma FamilyType(f: nat)
    requires f < 9
    ensures FAMILIES[f].typ == if f < 7 then "counter" else "gauge"
  {
  }

  /** The HELP and TYPE lines of family `m`, declared as `typ`, stand at `at`. */
  ghost predicate DeclaredAt(lines: seq<string>, at: nat, m: Family, typ: string) {
    && at + 1 < |lines|
    && lines[at] == "# HELP " + m.name + " " + m.help
    && lines[at + 1] == "# TYPE " + m.name + " " + typ
  }

  /** Each family starts with its HELP and TYPE lines; seven are counters, then two gauges. */
  lemma FamiliesAreDeclared(snapshots: seq<Snapshot>, f: nat)
    requires f < 9
    ensures DeclaredAt(Split(Exposition(FAMILIES, snapshots), '\n'), f * (2 + |snapshots|), FAMILIES[f],
                       if f < 7 then "counter" else "gauge")
  {
    hide Exposition, Lines, FamilyLines, SampleLines, Split;
    ExpositionLines(snapshots);
    HeadAt(FAMILIES, snapshots, f);
    FamilyType(f);
  }

  // ---------- reading the exposition back ----------

  /** A sample as a scraper reads it. */
  datatype Row = Row(name: string, id: string, kind: string, value: string)

  /** The sample in `line`, when it is one of family `family`. */
  function ReadSample(line: string, family: string): Option<Row> {
    match Expect(line, family + "{")
    case None => None
    case Some(s0) =>
      match ScanLabel(s0, "name=\"")
      case None => None
      case Some((name, s1)) =>
        match ScanLabel(s1, ",id=\"")
        case None => None
        case Some((id, s2)) =>
          match ScanLabel(s2, ",type=\"")
          case None => None
          case Some((kind, s3)) =>
            var value := Expect(s3, "} ");
            if value.None? then None else Some(Row(name, id, kind, value.value))
  }

  /** All samples of a family, in order. */
  function ReadFamily(lines: seq<string>, family: string): seq<Row> {
    if lines == [] then []
    else
      var r := ReadSample(lines[|lines| - 1], family);
      ReadFamily(lines[..|lines| - 1], family) + (if r.Some? then [r.value] else [])
  }

  /** A whole number, or one with three decimals, in thousandths. */
  function ReadMillis(text: string): Option<int> {
    var negative := text != "" && text[0] == '-';
    var body := if negative then text[1..] else text;
    var i := IndexOf(body, '.');
    if i < 1 || i + 4 != |body| || !AllDigits(body[..i]) || !AllDigits(body[i + 1..]) then None
    else
      var n: int := 1000 * ParseDigits(body[..i]) + ParseDigits(body[i + 1..]);
      Some(if negative then -n else n)
  }

  lemma ReadFamilyAppend(a: seq<string>, line: string, family: string)
    ensures ReadFamily(a + [line], family) ==
      if ReadSample(line, family).Some? then ReadFamily(a, family) + [ReadSample(line, family).value]
      else ReadFamily(a, family)
  {
    hide ReadSample;
    assert (a + [line])[..|a|] == a;
    assert ReadFamily(a, family) + [] == ReadFamily(a, family);
  }

  lemma {:induction false} ReadFamilyConcat(a: seq<string>, b: seq<string>, family: string)
    ensures ReadFamily(a + b, family) == ReadFamily(a, family) + ReadFamily(b, family)
  {
    hide ReadSample;
    if b == [] {
      assert a + b == a && ReadFamily(a, family) + [] == ReadFamily(a, family);
    } else {
      var c, line := b[..|b| - 1], b[|b| - 1];
      ReadFamilyConcat(a, c, family);
      assert a + b == (a + c) + [line] && b == c + [line];
      ReadFamilyAppend(a + c, line, family);
      ReadFamilyAppend(c, line, family);
    }
  }

  /** The row that a snapshot makes in family `f`. */
  function RowOf(f: nat, s: Snapshot): Row
    requires f < 9
  {
    Row(s.name, s.id, s.kind, Sample(f, s))
  }

  lemma ExpectBack(word: string, rest: string)
    ensures Expect(word + rest, word) == Some(rest)
  {
    assert (word + rest)[..|word|] == word && (word + rest)[|word|..] == rest;
  }

  /** A sample line reads back as its row. */
  lemma SampleReadsBack(m: Family, f: nat, s: Snapshot)
    requires f < 9
    ensures ReadSample(SampleLine(m, f, s), m.name) == Some(RowOf(f, s))
  {
    hide Sample, Escape, ScanLabel, Expect;
    var value := Sample(f, s);
    var s3 := "} " + value;
    var s2 := ",type=\"" + (Escape(s.kind) + "\"" + s3);
    var s1 := ",id=\"" + (Escape(s.id) + "\"" + s2);
    var s0 := "name=\"" + (Escape(s.name) + "\"" + s1);
    LineSplits(m.name, Escape(s.name), Escape(s.id), Escape(s.kind), value);
    ExpectBack(m.name + "{", s0);
    ScanLabelBack("name=\"", s.name, s1);
    ScanLabelBack(",id=\"", s.id, s2);
    ScanLabelBack(",type=\"", s.kind, s3);
    ExpectBack("} ", value);
  }

  lemma LineSplits(m: string, n: string, i: string, k: string, v: string)
    ensures m + "{" + ("name=\"" + n + "\",id=\"" + i + "\",type=\"" + k + "\"") + "} " + v ==
      m + "{" + ("name=\"" + (n + "\"" + (",id=\"" + (i + "\"" + (",type=\"" + (k + "\"" + ("} " + v)))))))
  {
    var s3 := "} " + v;
    FormatSplits(n, i, k);
    var t := ",type=\"" + (k + "\"" + "");
    Tail(n, i, k, s3);
    Associates(m + "{", "name=\"" + n + "\",id=\"" + i + "\",type=\"" + k + "\"", s3);
    var l := m + "{" + ("name=\"" + n + "\",id=\"" + i + "\",type=\"" + k + "\"");
    Associates(l, "} ", v);
  }

  lemma Tail(n: string, i: string, k: string, rest: string)
    ensures ("name=\"" + n + "\",id=\"" + i + "\",type=\"" + k + "\"") + rest ==
      "name=\"" + (n + "\"" + (",id=\"" + (i + "\"" + (",type=\"" + (k + "\"" + rest)))))
  {
    var a, b := ",type=\"" + (k + "\"" + rest), "\",type=\"" + k + "\"";
    assert b + rest == "\"" + a;
    var c := "\",id=\"" + i;
    assert (c + b) + rest == c + (b + rest);
    assert c + ("\"" + a) == "\"" + (",id=\"" + (i + "\"" + a));
  }

  /** A line of another family, or a comment, is no sample of this one. */
  lemma OtherLines(m: Family, f: nat, s: Snapshot, family: string)
    requires f < 9 && IsFamilyName(m.name) && IsFamilyName(family)
    ensures |m.name| != |family| ==> ReadSample(SampleLine(m, f, s), family) == None
    ensures ReadSample(HelpLine(m), family) == None && ReadSample(TypeLine(m), family) == None
  {
    hide Sample, FormatLabels, ScanLabel;
    var line, front := SampleLine(m, f, s), family + "{";
    if HasPrefix(line, front) {
      assert line[|family|] == front[|family|] == '{';
      assert line[|m.name|] == '{';
      assert forall i :: 0 <= i < |family| ==> line[i] == front[i] == family[i];
      assert forall i :: 0 <= i < |m.name| ==> line[i] == m.name[i];
    }
    assert HelpLine(m)[0] == '#' && TypeLine(m)[0] == '#' && front[0] == family[0];
  }

  /** The rows of the first `n` snapshots in family `f`. */
  function Rows(f: nat, snapshots: seq<Snapshot>): (r: seq<Row>)
    requires f < 9
    ensures |r| == |snapshots| && forall i :: 0 <= i < |r| ==> r[i] == RowOf(f, snapshots[i])
  {
    seq(|snapshots|, i requires 0 <= i < |snapshots| => RowOf(f, snapshots[i]))
  }

  lemma {:induction false} SamplesReadBack(m: Family, f: nat, snapshots: seq<Snapshot>, family: string)
    requires f < 9 && IsFamilyName(m.name) && IsFamilyName(family)
    requires family == m.name || |family| != |m.name|
    ensures ReadFamily(SampleLines(m, f, snapshots), family) == if family == m.name then Rows(f, snapshots) else []
  {
    hide ReadSample, SampleLine, RowOf, ReadFamily, Rows, IsFamilyName, HelpLine, TypeLine;
    NoRows(family);
    RowsStep(f, snapshots);
    if snapshots != [] {
      var before, s := snapshots[..|snapshots| - 1], snapshots[|snapshots| - 1];
      SamplesReadBack(m, f, before, family);
      ReadFamilyAppend(SampleLines(m, f, before), SampleLine(m, f, s), family);
      SampleReadsBack(m, f, s);
      OtherLines(m, f, s, family);
    }
  }

  lemma RowsStep(f: nat, snapshots: seq<Snapshot>)
    requires f < 9
    ensures snapshots == [] ==> Rows(f, snapshots) == []
    ensures snapshots != [] ==>
      Rows(f, snapshots) == Rows(f, snapshots[..|snapshots| - 1]) + [RowOf(f, snapshots[|snapshots| - 1])]
  {
    hide RowOf;
  }

  lemma FamilyReadsBack(m: Family, f: nat, snapshots: seq<Snapshot>, family: string)
    requires f < 9 && IsFamilyName(m.name) && IsFamilyName(family)
    requires family == m.name || |family| != |m.name|
    ensures ReadFamily(FamilyLines(m, f, snapshots), family) == if family == m.name then Rows(f, snapshots) else []
  {
    hide ReadSample, SampleLines, ReadFamily, HelpLine, TypeLine, Rows;
    SamplesReadBack(m, f, snapshots, family);
    CommentLines(m, f, family);
    ReadFamilyConcat([HelpLine(m), TypeLine(m)], SampleLines(m, f, snapshots), family);
  }

  lemma CommentLines(m: Family, f: nat, family: string)
    requires IsFamilyName(m.name) && IsFamilyName(family)
    ensures ReadFamily([HelpLine(m), TypeLine(m)], family) == []
  {
    hide ReadSample, HelpLine, TypeLine;
    CommentLine(m, family);
    assert [] + [HelpLine(m)] == [HelpLine(m)];
    ReadFamilyAppend([], HelpLine(m), family);
    assert [HelpLine(m)] + [TypeLine(m)] == [HelpLine(m), TypeLine(m)];
    ReadFamilyAppend([HelpLine(m)], TypeLine(m), family);
  }

  lemma CommentLine(m: Family, family: string)
    requires IsFamilyName(family)
    ensures ReadSample(HelpLine(m), family) == None && ReadSample(TypeLine(m), family) == None
  {
    hide ScanLabel;
    var front := family + "{";
    assert HelpLine(m)[0] == '#' && TypeLine(m)[0] == '#' && front[0] == family[0];
  }

  /** Families that a reader can tell apart. */
  ghost predicate Readable(ms: seq<Family>) {
    && (forall f :: 0 <= f < |ms| ==> IsFamilyName(ms[f].name))
    && forall f, g :: 0 <= f < g < |ms| ==> |ms[f].name| != |ms[g].name|
  }

  lemma {:induction false} LinesReadBack(ms: seq<Family>, n: nat, snapshots: seq<Snapshot>, f: nat)
    requires n <= |ms| == 9 && f < 9 && Readable(ms)
    ensures ReadFamily(Lines(ms, n, snapshots), ms[f].name) == if f < n then Rows(f, snapshots) else []
  {
    hide ReadFamily, FamilyLines, Rows, IsFamilyName;
    if n == 0 {
      NoRows(ms[f].name);
    } else {
      LinesReadBack(ms, n - 1, snapshots, f);
      FamilyReadsBack(ms[n - 1], n - 1, snapshots, ms[f].name);
      ReadFamilyConcat(Lines(ms, n - 1, snapshots), FamilyLines(ms[n - 1], n - 1, snapshots), ms[f].name);
    }
  }

  lemma NoRows(family: string)
    ensures ReadFamily([], family) == []
  {
  }

  /** What a scraper reads under the name of a family. */
  function Scraped(snapshots: seq<Snapshot>, family: string): seq<Row> {
    ReadFamily(Split(Exposition(FAMILIES, snapshots), '\n'), family)
  }

  lemma FamilyNameLengths()
    ensures |ACCEPTED.name| == 36 && |FAILED.name| == 34 && |BYTES_IN.name| == 30
    ensures |BYTES_OUT.name| == 26 && |ERRORS.name| == 22 && |RATE_LIMIT_HITS.name| == 31
    ensures |FILTER_BLOCKS.name| == 29 && |ACTIVE.name| == 28 && |UPTIME.name| == 24
  {
  }

  lemma FamiliesAreReadable()
    ensures Readable(FAMILIES)
  {
    hide IsFamilyName;
    FamiliesArePlain();
    FamilyNameLengths();
    forall f | 0 <= f < 9 ensures IsFamilyName(FAMILIES[f].name) {
      assert Plain(FAMILIES[f]);
    }
  }

  lemma ScrapedRows(snapshots: seq<Snapshot>, f: nat)
    requires f < 9
    ensures Scraped(snapshots, FAMILIES[f].name) == Rows(f, snapshots)
  {
    hide Exposition, Lines, ReadFamily, Rows, ReadSample, Readable;
    var family := FAMILIES[f].name;
    ExpositionLines(snapshots);
    FamiliesAreReadable();
    LinesReadBack(FAMILIES, 9, snapshots, f);
    ReadFamilyAppend(Lines(FAMILIES, 9, snapshots), "", family);
    EmptyLine(family);
  }

  lemma EmptyLine(family: string)
    ensures ReadSample("", family) == None
  {
    hide ScanLabel;
    assert |family + "{"| > 0;
  }

  /** The rows that a scraper should see when the value of each snapshot is `value`. */
  ghost predicate Reports(rows: seq<Row>, snapshots: seq<Snapshot>, value: Snapshot -> string) {
    && |rows| == |snapshots|
    && forall i :: 0 <= i < |rows| ==>
      rows[i] == Row(snapshots[i].name, snapshots[i].id, snapshots[i].kind, value(snapshots[i]))
  }

  ghost predicate ReportsAs(snapshots: seq<Snapshot>, family: string, value: Snapshot -> string) {
    Reports(Scraped(snapshots, family), snapshots, value)
  }

  lemma ScrapedReports(snapshots: seq<Snapshot>, f: nat, family: string, value: Snapshot -> string)
    requires f < 9 && FAMILIES[f].name == family && forall s: Snapshot :: value(s) == Sample(f, s)
    ensures Reports(Scraped(snapshots, family), snapshots, value)
  {
    hide Sample, Scraped;
    ScrapedRows(snapshots, f);
  }

  /**
   A scraper that looks a family up by its name reads for every tunnel, in order, its labels and exactly the
   counter that the name says, whatever the labels contain.
   */
  lemma EachFamilyReportsItsCounter(snapshots: seq<Snapshot>)
    ensures ReportsAs(snapshots, "i2ptunnel_connections_accepted_total", (s: Snapshot) => Itoa(s.accepted))
    ensures ReportsAs(snapshots, "i2ptunnel_connections_failed_total", (s: Snapshot) => Itoa(s.failed))
    ensures ReportsAs(snapshots, "i2ptunnel_bytes_received_total", (s: Snapshot) => Itoa(s.bytesIn))
    ensures ReportsAs(snapshots, "i2ptunnel_bytes_sent_total", (s: Snapshot) => Itoa(s.bytesOut))
    ensures ReportsAs(snapshots, "i2ptunnel_errors_total", (s: Snapshot) => Itoa(s.errors))
    ensures ReportsAs(snapshots, "i2ptunnel_rate_limit_hits_total", (s: Snapshot) => Itoa(s.rateLimitHits))
    ensures ReportsAs(snapshots, "i2ptunnel_filter_blocks_total", (s: Snapshot) => Itoa(s.filterBlocks))
    ensures ReportsAs(snapshots, "i2ptunnel_active_connections", (s: Snapshot) => Itoa(s.active))
  {
    hide Scraped, Itoa;
    ScrapedReports(snapshots, 0, "i2ptunnel_connections_accepted_total", (s: Snapshot) => Itoa(s.accepted));
    ScrapedReports(snapshots, 1, "i2ptunnel_connections_failed_total", (s: Snapshot) => Itoa(s.failed));
    ScrapedReports(snapshots, 2, "i2ptunnel_bytes_received_total", (s: Snapshot) => Itoa(s.bytesIn));
    ScrapedReports(snapshots, 3, "i2ptunnel_bytes_sent_total", (s: Snapshot) => Itoa(s.bytesOut));
    ScrapedReports(snapshots, 4, "i2ptunnel_errors_total", (s: Snapshot) => Itoa(s.errors));
    ScrapedReports(snapshots, 5, "i2ptunnel_rate_limit_hits_total", (s: Snapshot) => Itoa(s.rateLimitHits));
    ScrapedReports(snapshots, 6, "i2ptunnel_filter_blocks_total", (s: Snapshot) => Itoa(s.filterBlocks));
    ScrapedReports(snapshots, 7, "i2ptunnel_active_connections", (s: Snapshot) => Itoa(s.active));
  }

  /** And under the ninth name it reads the uptime, to the millisecond. */
  lemma UptimeIsReported(snapshots: seq<Snapshot>)
    ensures var rows := Scraped(snapshots, "i2ptunnel_uptime_seconds");
      && |rows| == |snapshots|
      && forall i :: 0 <= i < |rows| ==>
        && rows[i].(value := "") == Row(snapshots[i].name, snapshots[i].id, snapshots[i].kind, "")
        && ReadMillis(rows[i].value) == Some(snapshots[i].uptimeMillis)
  {
    hide Scraped, ReadMillis, Millis;
    ScrapedReports(snapshots, 8, "i2ptunnel_uptime_seconds", (s: Snapshot) => Millis(s.uptimeMillis));
    forall i | 0 <= i < |snapshots|
      ensures ReadMillis(Millis(snapshots[i].uptimeMillis)) == Some(snapshots[i].uptimeMillis)
    {
      MillisReadsBack(snapshots[i].uptimeMillis);
    }
  }

  lemma MillisReadsBack(n: int)
    ensures ReadMillis(Millis(n)) == Some(n)
  {
    hide PrintNat, ParseDigits, IndexOf;
    var m := if n < 0 then -n else n;
    var whole, part := PrintNat(m / 1000), [DigitChar(m / 100 % 10), DigitChar(m / 10 % 10), DigitChar(m % 10)];
    var body := whole + "." + part;
    assert body == whole + ['.'] + part;
    FirstDot(whole, part);
    ParsePrintNat(m / 1000);
    ThreeDigits(m);
    assert body[..|whole|] == whole && body[|whole| + 1..] == part;
    assert n < 0 ==> Millis(n) == "-" + body && Millis(n)[1..] == body;
    assert n >= 0 ==> Millis(n) == "" + body == body;
    assert IsDigit(whole[0]) && body[0] == whole[0];
  }

  lemma FirstDot(whole: string, part: string)
    requires AllDigits(whole)
    ensures IndexOf(whole + ['.'] + part, '.') == |whole|
  {
    hide IndexOf;
    assert forall i :: 0 <= i < |whole| ==> IsDigit(whole[i]);
    IndexUnique(whole, '.', part);
  }

  lemma ParseAppend(s: string, c: char)
    requires AllDigits(s) && IsDigit(c)
    ensures AllDigits(s + [c]) && ParseDigits(s + [c]) == 10 * ParseDigits(s) + (c as int - '0' as int)
  {
    assert (s + [c])[..|s|] == s;
  }

  lemma Thousandths(m: nat)
    ensures 1000 * (m / 1000) + 100 * (m / 100 % 10) + 10 * (m / 10 % 10) + m % 10 == m
  {
    var a := m / 10;
    var b := a / 10;
    assert m == 10 * a + m % 10 && a == 10 * b + a % 10 && b == 10 * (b / 10) + b % 10;
    assert b == m / 100 && b / 10 == m / 1000;
  }

  lemma ThreeDigits(m: nat)
    ensures var part := [DigitChar(m / 100 % 10), DigitChar(m / 10 % 10), DigitChar(m % 10)];
      AllDigits(part) && 1000 * (m / 1000) + ParseDigits(part) == m
  {
    hide ParseDigits;
    var a, b, c := DigitChar(m / 100 % 10), DigitChar(m / 10 % 10), DigitChar(m % 10);
    NoDigits();
    ParseAppend("", a);
    ParseAppend("" + [a], b);
    ParseAppend("" + [a] + [b], c);
    assert "" + [a] + [b] + [c] == [a, b, c];
    Thousandths(m);
  }

  lemma NoDigits()
    ensures AllDigits("") && ParseDigits("") == 0
  {
  }
}
