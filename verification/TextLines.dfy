/**
 Lines and trimmed parts of a text, by index and for any notion of space: how cutting the space off a
 text and cutting it into lines go together.
 */
module TextLines {
  import opened Text

  /** `s[i..j]` is what is left of `s` when the space around it is cut off. */
  ghost predicate Cut(sp: char -> bool, s: string, i: int, j: int) {
    && 0 <= i <= j <= |s|
    && (forall k :: 0 <= k < i || j <= k < |s| ==> sp(s[k]))
    && (i < j ==> !sp(s[i]) && !sp(s[j - 1]))
  }

  /** `s[i..j]` is a line of `s`: newline-free and bounded by newlines or the ends. */
  ghost predicate IsLine(s: string, i: int, j: int) {
    && 0 <= i <= j <= |s|
    && (forall k :: i <= k < j ==> s[k] != '\n')
    && (i == 0 || s[i - 1] == '\n')
    && (j == |s| || s[j] == '\n')
  }

  lemma Slice<T>(s: seq<T>, i: int, j: int, a: int, b: int)
    requires 0 <= i <= j <= |s| && 0 <= a <= b <= j - i
    ensures s[i..j][a..b] == s[i + a..i + b]
  {
    var x, y := s[i..j][a..b], s[i + a..i + b];
    assert |x| == |y|;
    forall k | 0 <= k < b - a ensures x[k] == y[k] {
      assert x[k] == s[i..j][a + k];
    }
  }

  /** Two ways to cut the same stretch out of `s`. */
  lemma SameSlice<T>(s: seq<T>, from: int, to: int, p: int, q: int, c: int, d: int,
                     i: int, j: int, a: int, b: int)
    requires 0 <= from <= to <= |s| && 0 <= p <= q <= to - from && 0 <= c <= d <= q - p
    requires 0 <= i <= j <= |s| && 0 <= a <= b <= j - i
    requires from + p + c == i + a && from + p + d == i + b
    ensures s[from..to][p..q][c..d] == s[i..j][a..b]
  {
    Slice(s, from, to, p, q);
    Slice(s, from + p, from + q, c, d);
    Slice(s, i, j, a, b);
  }

  lemma SliceAt<T>(s: seq<T>, i: int, j: int)
    requires 0 <= i <= j <= |s|
    ensures forall k :: 0 <= k < j - i ==> s[i..j][k] == s[i + k]
    ensures forall k :: i <= k < j ==> s[k] == s[i..j][k - i]
  {
  }

  function Space(): char -> bool {
    (c: char) => IsSpace(c)
  }

  lemma TrimIsCut(s: string) returns (i: int, j: int)
    ensures Cut(Space(), s, i, j) && TrimSpace(s) == s[i..j]
  {
    var from, to := TrimSpacePiece(s);
    i, j := from, to;
    var r := TrimSpace(s);
    if i < j {
      assert s[i] == r[0] && s[j - 1] == r[|r| - 1];
    }
  }

  lemma CutIsTrim(s: string, i: int, j: int)
    requires Cut(Space(), s, i, j) && i < j
    ensures TrimSpace(s) == s[i..j]
  {
    var k, l := TrimIsCut(s);
    CutUnique(Space(), s, i, j, k, l);
  }

  lemma CutUnique(sp: char -> bool, s: string, i: int, j: int, k: int, l: int)
    requires Cut(sp, s, i, j) && Cut(sp, s, k, l) && i < j
    ensures i == k && j == l
  {
    assert !sp(s[i]) && !sp(s[j - 1]);
    assert k <= i && j <= l;
    assert !sp(s[k]) && !sp(s[l - 1]);
  }

  lemma LineInRest(s: string, n: int, i: int, j: int)
    requires IsLine(s, i, j) && 0 <= n <= i
    ensures IsLine(s[n..], i - n, j - n) && s[n..][i - n..j - n] == s[i..j]
  {
    var rest := s[n..];
    assert forall k :: n <= k < |s| ==> rest[k - n] == s[k];
  }

  /** The lines of `s`, one step at a time. */
  lemma SplitStep(s: string, n: int, k: nat)
    requires n == IndexOf(s, '\n')
    ensures n < 0 ==> Split(s, '\n') == [s]
    ensures n >= 0 ==> |Split(s, '\n')| == 1 + |Split(s[n + 1..], '\n')| && Split(s, '\n')[0] == s[..n]
    ensures n >= 0 && k < |Split(s[n + 1..], '\n')| ==> Split(s, '\n')[k + 1] == Split(s[n + 1..], '\n')[k]
  {
    hide IndexOf;
  }

  lemma {:induction false} LineIsSplit(s: string, i: int, j: int) returns (k: nat)
    requires IsLine(s, i, j)
    ensures k < |Split(s, '\n')| && Split(s, '\n')[k] == s[i..j]
    decreases |s|
  {
    hide Split, IndexOf;
    var n := IndexOf(s, '\n');
    if n < 0 {
      k := 0;
      SplitStep(s, n, 0);
      assert s[i..j] == s;
    } else if i == 0 {
      k := 0;
      SplitStep(s, n, 0);
      assert j == n;
    } else {
      assert i > n;
      LineInRest(s, n + 1, i, j);
      k := LineIsSplit(s[n + 1..], i - n - 1, j - n - 1);
      SplitStep(s, n, k);
      k := k + 1;
    }
  }

  lemma {:induction false} SplitIsLine(s: string, k: nat) returns (i: int, j: int)
    requires k < |Split(s, '\n')|
    ensures IsLine(s, i, j) && Split(s, '\n')[k] == s[i..j]
    decreases |s|
  {
    hide IsLine, Split, IndexOf;
    var n := IndexOf(s, '\n');
    if n < 0 || k == 0 {
      i, j := 0, if n < 0 then |s| else n;
      FirstLine(s, n);
      SplitStep(s, n, 0);
    } else {
      var rest := s[n + 1..];
      SplitStep(s, n, k - 1);
      i, j := SplitIsLine(rest, k - 1);
      LineShift(s, n + 1, rest, i, j);
      i, j := i + n + 1, j + n + 1;
    }
  }

  lemma FirstLine(s: string, n: int)
    requires n == IndexOf(s, '\n')
    ensures IsLine(s, 0, if n < 0 then |s| else n)
  {
  }

  /** A line of what follows a newline is a line of the whole. */
  lemma LineShift(s: string, n: int, rest: string, i: int, j: int)
    requires 0 < n <= |s| && s[n - 1] == '\n' && rest == s[n..] && IsLine(rest, i, j)
    ensures IsLine(s, i + n, j + n) && rest[i..j] == s[i + n..j + n]
  {
    forall k | i + n <= k < j + n ensures s[k] != '\n' {
      assert s[k] == rest[k - n];
    }
    assert i > 0 ==> s[i + n - 1] == rest[i - 1];
    assert j < |rest| ==> s[j + n] == rest[j];
  }

  /** Cutting the space off the whole text keeps every line that is not blank, up to space around it. */
  lemma LineSurvivesCut(sp: char -> bool, raw: string, from: int, to: int, i: int, j: int, a: int, b: int)
    returns (p: int, q: int, c: int, d: int)
    requires Cut(sp, raw, from, to) && IsLine(raw, i, j)
    requires Cut(sp, raw[i..j], a, b) && a < b
    ensures IsLine(raw[from..to], p, q) && Cut(sp, raw[from..to][p..q], c, d) && c < d
    ensures raw[from..to][p..q][c..d] == raw[i..j][a..b]
  {
    CutCore(sp, raw, from, to, i, j, a, b);
    var i', j' := if i < from then from else i, if j > to then to else j;
    p, q := i' - from, j' - from;
    c, d := i + a - i', i + b - i';
    LineClipped(raw, from, to, i, j, i', j');
    CutOfClipped(sp, raw, from, to, i, j, a, b, i', j');
    SameSlice(raw, from, to, p, q, c, d, i, j, a, b);
  }

  lemma CutOfClipped(sp: char -> bool, raw: string, from: int, to: int, i: int, j: int, a: int, b: int,
                     i': int, j': int)
    requires 0 <= from <= i' <= j' <= to <= |raw| && 0 <= i <= i' && j' <= j <= |raw|
    requires i' <= i + a && i + b <= j' && Cut(sp, raw[i..j], a, b) && a < b
    ensures Cut(sp, raw[from..to][i' - from..j' - from], i + a - i', i + b - i')
  {
    SpaceAround(sp, raw, i, j, a, b, i', j');
    Slice(raw, from, to, i' - from, j' - from);
  }

  /** What is not space lies within the cut. */
  lemma CutCore(sp: char -> bool, raw: string, from: int, to: int, i: int, j: int, a: int, b: int)
    requires Cut(sp, raw, from, to) && 0 <= i <= j <= |raw| && Cut(sp, raw[i..j], a, b) && a < b
    ensures from <= i + a && i + b <= to
  {
    SliceAt(raw, i, j);
    assert !sp(raw[i + a]) && !sp(raw[i + b - 1]);
  }

  /** A line clipped to a part of the text is a line of that part. */
  lemma LineClipped(raw: string, from: int, to: int, i: int, j: int, i': int, j': int)
    requires IsLine(raw, i, j) && 0 <= from <= i' <= j' <= to <= |raw|
    requires i' == (if i < from then from else i) && j' == (if j > to then to else j)
    ensures IsLine(raw[from..to], i' - from, j' - from)
  {
    SliceAt(raw, from, to);
  }

  /** Clipping a line at space leaves its trimmed part as it was. */
  lemma SpaceAround(sp: char -> bool, raw: string, i: int, j: int, a: int, b: int, i': int, j': int)
    requires 0 <= i <= i' <= j' <= j <= |raw| && Cut(sp, raw[i..j], a, b) && a < b
    requires i' <= i + a && i + b <= j'
    ensures Cut(sp, raw[i'..j'], i + a - i', i + b - i')
  {
    SliceAt(raw, i, j);
    SliceAt(raw, i', j');
    forall k | 0 <= k < i + a - i' || i + b - i' <= k < j' - i' ensures sp(raw[i'..j'][k]) {
      assert raw[i'..j'][k] == raw[i..j][i' + k - i];
    }
  }

  /** Conversely, a line of the cut text lies in one line of the whole that differs from it by space only. */
  lemma LineBeforeCut(sp: char -> bool, raw: string, from: int, to: int, p: int, q: int, c: int, d: int)
    returns (i: int, j: int, a: int, b: int)
    requires Cut(sp, raw, from, to) && IsLine(raw[from..to], p, q)
    requires Cut(sp, raw[from..to][p..q], c, d) && c < d
    ensures IsLine(raw, i, j) && Cut(sp, raw[i..j], a, b) && a < b
    ensures raw[i..j][a..b] == raw[from..to][p..q][c..d]
  {
    SliceAt(raw, from, to);
    i, j := LineAround(raw, from + p, from + q);
    a, b := from + p + c - i, from + p + d - i;
    OnlySpaceOutside(sp, raw, from, to, p, q, i, j);
    Slice(raw, from, to, p, q);
    SpaceBeyond(sp, raw, i, j, from + p, from + q, c, d);
    SameSlice(raw, from, to, p, q, c, d, i, j, a, b);
  }

  /** Extending a line by space leaves its trimmed part as it was. */
  lemma SpaceBeyond(sp: char -> bool, raw: string, i: int, j: int, i': int, j': int, c: int, d: int)
    requires 0 <= i <= i' <= j' <= j <= |raw| && Cut(sp, raw[i'..j'], c, d) && c < d
    requires forall k :: i <= k < i' || j' <= k < j ==> sp(raw[k])
    ensures Cut(sp, raw[i..j], i' + c - i, i' + d - i)
  {
    SliceAt(raw, i, j);
    SliceAt(raw, i', j');
    forall k | 0 <= k < i' + c - i || i' + d - i <= k < j - i ensures sp(raw[i..j][k]) {
      assert raw[i..j][k] == raw[i + k];
      if i' <= i + k < j' {
        assert raw[i + k] == raw[i'..j'][i + k - i'];
      }
    }
  }

  /** Around a line of the cut text, the line of the whole text adds only space. */
  lemma OnlySpaceOutside(sp: char -> bool, raw: string, from: int, to: int, p: int, q: int, i: int, j: int)
    requires Cut(sp, raw, from, to) && IsLine(raw[from..to], p, q)
    requires IsLine(raw, i, j) && i <= from + p && from + q <= j
    ensures forall k :: i <= k < from + p || from + q <= k < j ==> sp(raw[k])
  {
    var body := raw[from..to];
    assert p > 0 ==> body[p - 1] == raw[from + p - 1];
    assert q < |body| ==> body[q] == raw[from + q];
  }

  /** The line of `s` around a newline-free stretch. */
  lemma LineAround(s: string, p: int, q: int) returns (i: int, j: int)
    requires 0 <= p <= q <= |s| && forall k :: p <= k < q ==> s[k] != '\n'
    ensures i <= p && q <= j && IsLine(s, i, j)
  {
    i, j := p, q;
    while i > 0 && s[i - 1] != '\n'
      invariant 0 <= i <= p && forall k :: i <= k < q ==> s[k] != '\n'
    {
      i := i - 1;
    }
    while j < |s| && s[j] != '\n'
      invariant q <= j <= |s| && forall k :: i <= k < j ==> s[k] != '\n'
      decreases |s| - j
    {
      j := j + 1;
    }
  }
}
