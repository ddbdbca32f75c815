/**
 The bounded error history (lib/core/error_tracker.go): a slice over a backing array that is appended
 to in place, moved to a larger array when full, and cut back to its newest entries.
 */
module ErrorTracking {
  import opened Wrappers

  const MAX_ERRORS := 100

  /** The text of NewError (lib/core/errors.go). */
  function NewError(name: string, err: string): string {
    "Name:" + name + "\n\tError:" + err + "\n"
  }

  /** The text of an error shows in its record, between a part that depends on the tunnel only and a newline. */
  lemma NewErrorShowsTheError(name: string, err: string, err': string)
    ensures NewError(name, err) == NewError(name, "")[..|NewError(name, "")| - 1] + err + "\n"
    ensures NewError(name, err) == NewError(name, err') ==> err == err'
  {
    var front := "Name:" + name + "\n\tError:";
    assert NewError(name, "") == front + "\n";
    if NewError(name, err) == NewError(name, err') {
      var a, b := front + err, front + err';
      assert a == NewError(name, err)[..|a|];
      assert |a| == |b|;
      assert b == NewError(name, err')[..|b|];
      assert err == a[|front|..] && err' == b[|front|..];
    }
  }

  /** The last `n` elements of `s`, in order, or all of them. */
  function Newest<T>(s: seq<T>, n: nat): (r: seq<T>)
    ensures |r| == if |s| <= n then |s| else n
  {
    if |s| <= n then s else s[|s| - n..]
  }

  /** Keeping the newest after every append is the same as keeping the newest at the end. */
  lemma NewestStep<T>(s: seq<T>, x: T, n: nat)
    ensures Newest(Newest(s, n) + [x], n) == Newest(s + [x], n)
  {
  }

  class ErrorTracker {
    // Errors is buf[..len]
    var buf: array<string>
    var len: nat
    // everything ever recorded
    ghost var history: seq<string>

    ghost predicate Valid()
      reads this, buf
    {
      len <= buf.Length && buf[..len] == Newest(history, MAX_ERRORS)
    }

    constructor ()
      ensures Valid() && fresh(buf) && history == []
    {
      buf := new string[0];
      len := 0;
      history := [];
    }

    /** append: in place while the backing array has room. */
    method Append(e: string)
      requires len <= buf.Length
      modifies this`buf, this`len, buf
      ensures len == old(len) + 1 <= buf.Length && buf[..len] == old(buf[..len]) + [e]
      ensures buf == old(buf) || fresh(buf)
    {
      if len == buf.Length {
        var grown := new string[2 * len + 1];
        forall i | 0 <= i < len {
          grown[i] := buf[i];
        }
        buf := grown;
      }
      buf[len] := e;
      len := len + 1;
    }

    method Record(name: string, err: string)
      requires Valid()
      modifies this, buf
      ensures Valid() && history == old(history) + [NewError(name, err)]
      ensures buf == old(buf) || fresh(buf)
    {
      NewestStep(history, NewError(name, err), MAX_ERRORS);
      history := history + [NewError(name, err)];
      Append(NewError(name, err));
      Trim();
    }

    /** The oldest entries are dropped by copying the rest to a fresh array. */
    method Trim()
      requires len <= buf.Length
      modifies this`buf, this`len
      ensures len <= buf.Length && buf[..len] == Newest(old(buf[..len]), MAX_ERRORS)
      ensures buf == old(buf) || fresh(buf)
    {
      if len > MAX_ERRORS {
        var kept := new string[MAX_ERRORS];
        forall i | 0 <= i < MAX_ERRORS {
          kept[i] := buf[len - MAX_ERRORS + i];
        }
        assert kept[..] == buf[..len][len - MAX_ERRORS..];
        buf, len := kept, MAX_ERRORS;
        assert buf[..len] == kept[..];
      }
    }

    /** The newest recorded error, or nil. */
    method Last() returns (e: Option<string>)
      requires Valid()
      ensures e == if history == [] then None else Some(history[|history| - 1])
    {
      if len > 0 {
        assert buf[len - 1] == buf[..len][len - 1];
        return Some(buf[len - 1]);
      }
      assert |buf[..len]| == 0;
      return None;
    }

    /** A copy of the history in a fresh array; nil when nothing was recorded. */
    method All() returns (copied: Option<array<string>>)
      requires Valid()
      ensures copied == None <==> history == []
      ensures copied.Some? ==> fresh(copied.value) && copied.value[..] == Newest(history, MAX_ERRORS)
    {
      assert |buf[..len]| == len;
      if len == 0 {
        return None;
      }
      var r := new string[len];
      forall i | 0 <= i < len {
        r[i] := buf[i];
      }
      assert r[..] == buf[..len];
      return Some(r);
    }

    /**
     After any sequence of records the tracker holds exactly the newest 100 of everything recorded, in
     order; and a snapshot taken before them still holds what it held.
     */
    method RecordAll(name: string, errs: seq<string>) returns (snapshot: Option<array<string>>)
      requires Valid()
      modifies this, buf
      ensures Valid()
      ensures history == old(history) + Named(name, errs)
      ensures buf[..len] == Newest(old(history) + Named(name, errs), MAX_ERRORS)
      ensures snapshot.Some? ==> snapshot.value[..] == Newest(old(history), MAX_ERRORS)
      ensures snapshot == None <==> old(history) == []
    {
      snapshot := All();
      var i := 0;
      while i < |errs|
        invariant i <= |errs|
        invariant Valid() && history == old(history) + Named(name, errs[..i])
        invariant buf == old(buf) || fresh(buf)
        invariant snapshot.Some? ==> snapshot.value != buf
        invariant snapshot.Some? ==> snapshot.value[..] == Newest(old(history), MAX_ERRORS)
      {
        label before:
        Record(name, errs[i]);
        assert snapshot.Some? ==> unchanged@before(snapshot.value);
        assert Named(name, errs[..i + 1]) == Named(name, errs[..i]) + [NewError(name, errs[i])];
        i := i + 1;
      }
      assert errs[..i] == errs;
    }
  }

  function Named(name: string, errs: seq<string>): seq<string> {
    seq(|errs|, i requires 0 <= i < |errs| => NewError(name, errs[i]))
  }
}
