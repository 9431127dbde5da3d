/** Collecting values by key into an ordered map, refusing two that share a key and differ. */
module KeyedMap {
  import opened Ordering

  predicate KeyLeq<T>(key: T -> string, a: T, b: T) { LexLeq(key(a), key(b)) }

  function InKeyOrder<T>(key: T -> string): (T, T) -> bool { (a, b) => KeyLeq(key, a, b) }

  /** No two values share a key and differ. */
  ghost predicate Consistent<T(!new)>(key: T -> string, s: seq<T>)
  {
    forall x, y :: x in s && y in s && key(x) == key(y) ==> x == y
  }

  /** `m` holds exactly the values of `s`, by key. */
  ghost predicate Indexes<T(!new)>(key: T -> string, m: map<string, T>, s: seq<T>)
  {
    && (forall id :: id in m ==> key(m[id]) == id && m[id] in s)
    && (forall x :: x in s ==> key(x) in m && m[key(x)] == x)
  }

  /** Add values one at a time; stop at the first that contradicts one already held. */
  method Absorb<T(!new, ==)>(key: T -> string, held: map<string, T>, incoming: seq<T>, ghost before: seq<T>)
    returns (ok: bool, merged: map<string, T>)
    requires Indexes(key, held, before)
    ensures ok <==> Consistent(key, before + incoming)
    ensures ok ==> Indexes(key, merged, before + incoming)
  {
    merged := held;
    for i := 0 to |incoming|
      invariant Indexes(key, merged, before + incoming[..i])
    {
      var e := incoming[i];
      assert e in before + incoming;
      assert incoming[..i + 1] == incoming[..i] + [e];
      if key(e) in merged && merged[key(e)] != e {
        assert merged[key(e)] in before + incoming[..i];
        assert merged[key(e)] in before + incoming;
        return false, merged;
      }
      merged := merged[key(e) := e];
    }
    assert incoming[..|incoming|] == incoming;
    ok := true;
  }

  /** `BTreeMap::into_values`: the held values in key order. */
  method ValuesInOrder<T(!new)>(key: T -> string, m: map<string, T>, ghost s: seq<T>) returns (out: seq<T>)
    requires Indexes(key, m, s)
    ensures Ascending(key, out) && SameElements(out, s)
  {
    out := [];
    var rest := m.Keys;
    while rest != {}
      invariant rest <= m.Keys && Ascending(key, out)
      invariant forall e :: e in out <==> key(e) in m && key(e) !in rest && m[key(e)] == e
      decreases |rest|
    {
      var id :| id in rest;
      InsertAscending(key, out, m[id]);
      out := Insert(InKeyOrder(key), out, m[id]);
      rest := rest - {id};
    }
  }

  lemma {:induction false} InsertAscending<T(!new)>(key: T -> string, s: seq<T>, x: T)
    requires Ascending(key, s) && forall e :: e in s ==> key(e) != key(x)
    ensures Ascending(key, Insert(InKeyOrder(key), s, x))
    ensures forall e :: e in Insert(InKeyOrder(key), s, x) <==> e in s || e == x
  {
    if s == [] {
    } else if KeyLeq(key, s[0], x) {
      var rest := Insert(InKeyOrder(key), s[1..], x);
      InsertAscending(key, s[1..], x);
      assert s == [s[0]] + s[1..];
      forall i | 0 <= i < |rest| ensures LexLeq(key(s[0]), key(rest[i])) && key(s[0]) != key(rest[i]) {
        assert rest[i] in rest;
        if rest[i] in s[1..] { AscendingHead(key, s, rest[i]); InTail(key, s, rest[i]); }
      }
      PrependAscends(key, s[0], rest);
    } else {
      forall i | 0 <= i < |s| ensures LexLeq(key(x), key(s[i])) { BelowAll(key, s, x, i); }
      PrependAscends(key, x, s);
    }
  }

  lemma BelowAll<T(!new)>(key: T -> string, s: seq<T>, x: T, i: nat)
    requires Ascending(key, s) && i < |s| && !KeyLeq(key, s[0], x)
    ensures LexLeq(key(x), key(s[i]))
  {
    LexTotal(key(s[0]), key(x));
    if i > 0 { LexTransitive(key(x), key(s[0]), key(s[i])); }
  }

  /** An ascending list has one entry per value. */
  lemma {:induction false} AscendingCount<T(!new)>(key: T -> string, s: seq<T>, t: seq<T>)
    requires Ascending(key, s) && SameElements(s, t)
    ensures |s| == |(set x | x in t)|
  {
    assert (set x | x in t) == (set x | x in s);
    CountElements(key, s);
  }

  lemma {:induction false} CountElements<T(!new)>(key: T -> string, s: seq<T>)
    requires Ascending(key, s)
    ensures |s| == |(set x | x in s)|
  {
    if s != [] {
      CountElements(key, s[1..]);
      InTail(key, s, s[0]);
      assert s == [s[0]] + s[1..];
      assert (set x | x in s) == {s[0]} + (set x | x in s[1..]);
    }
  }
}
