/**
 Maps whose keys are a coded form of other keys, such as "i2cp." + k: the entries of a map under
 coded keys, and a map re-keyed by the code. Stated for any code with a left inverse.
 */
module PrefixedMaps {
  datatype Coding = Coding(key: string -> string, suffix: string -> string)

  ghost predicate Faithful(c: Coding) {
    forall j {:trigger c.key(j)} :: c.suffix(c.key(j)) == j
  }

  ghost predicate IsKey(c: Coding, k: string) {
    c.key(c.suffix(k)) == k
  }

  /** `r` holds exactly the entries of `m` under coded keys. */
  ghost predicate IsDecoded<V>(c: Coding, m: map<string, V>, r: map<string, V>) {
    && (forall j :: j in r <==> c.key(j) in m)
    && (forall j :: j in r ==> r[j] == m[c.key(j)])
  }

  /** `r` is `m` with every key coded. */
  ghost predicate IsEncoded<V>(c: Coding, m: map<string, V>, r: map<string, V>) {
    && (forall k :: k in r <==> IsKey(c, k) && c.suffix(k) in m)
    && (forall k :: k in r ==> r[k] == m[c.suffix(k)])
  }

  lemma DecodedExists<V>(c: Coding, m: map<string, V>)
    requires Faithful(c)
    ensures exists r :: IsDecoded(c, m, r)
  {
    var js := set k | k in m && IsKey(c, k) :: c.suffix(k);
    assert forall j :: c.key(j) in m ==> IsKey(c, c.key(j)) && j in js;
    assert IsDecoded(c, m, map j | j in js :: m[c.key(j)]);
  }

  lemma EncodedExists<V>(c: Coding, m: map<string, V>)
    requires Faithful(c)
    ensures exists r :: IsEncoded(c, m, r)
  {
    assert IsEncoded(c, m, map k | k in (set j | j in m :: c.key(j)) :: m[c.suffix(k)]);
  }

  ghost function Decoded<V>(c: Coding, m: map<string, V>): (r: map<string, V>)
    requires Faithful(c)
    ensures IsDecoded(c, m, r)
  {
    DecodedExists(c, m);
    var r :| IsDecoded(c, m, r);
    r
  }

  ghost function Encoded<V>(c: Coding, m: map<string, V>): (r: map<string, V>)
    requires Faithful(c)
    ensures IsEncoded(c, m, r)
  {
    EncodedExists(c, m);
    var r :| IsEncoded(c, m, r);
    r
  }

  lemma DecodedUnique<V>(c: Coding, m: map<string, V>, r: map<string, V>, s: map<string, V>)
    requires IsDecoded(c, m, r) && IsDecoded(c, m, s)
    ensures r == s
  {
    assert r.Keys == s.Keys;
  }

  lemma EncodedUnique<V>(c: Coding, m: map<string, V>, r: map<string, V>, s: map<string, V>)
    requires IsEncoded(c, m, r) && IsEncoded(c, m, s)
    ensures r == s
  {
    assert r.Keys == s.Keys;
  }

  lemma EncodedStep<V>(c: Coding, m: map<string, V>, e: map<string, V>, j: string, v: V)
    requires Faithful(c) && IsEncoded(c, m, e)
    ensures IsEncoded(c, m[j := v], e[c.key(j) := v])
  {
    forall k ensures k in e[c.key(j) := v] <==> IsKey(c, k) && c.suffix(k) in m[j := v] {
    }
  }

  lemma DecodedStep<V>(c: Coding, m: map<string, V>, d: map<string, V>, k: string, v: V)
    requires Faithful(c) && IsDecoded(c, m, d)
    ensures IsDecoded(c, m[k := v], if IsKey(c, k) then d[c.suffix(k) := v] else d)
  {
  }

  lemma DecodedOver<V>(c: Coding, a: map<string, V>, b: map<string, V>, da: map<string, V>, db: map<string, V>)
    requires IsDecoded(c, a, da) && IsDecoded(c, b, db)
    ensures IsDecoded(c, a + b, da + db)
  {
  }

  /** Decoding a map with uncoded entries `a` and the coded form of `b` gives `b`. */
  lemma DecodedEncoded<V>(c: Coding, a: map<string, V>, b: map<string, V>, e: map<string, V>)
    requires Faithful(c) && IsEncoded(c, b, e)
    requires forall k :: k in a ==> !IsKey(c, k)
    ensures IsDecoded(c, a + e, b)
  {
    forall j ensures j in b <==> c.key(j) in a + e {
      assert IsKey(c, c.key(j));
    }
  }
}
