/** What a `findMany` with `orderBy`, `skip` and `take` returns, over rows
    enumerated from a table: the ordering of sort keys, a verified sort, and
    the page window. */
module Listing {

  /** The value of the column a listing is ordered by. */
  datatype Key = KInt(i: int) | KReal(r: real) | KStr(s: string) | KBool(b: bool)

  /** Lexicographic order on strings by code point. */
  predicate StrLe(a: string, b: string)
    decreases |a|
  {
    |a| == 0 || (|b| > 0 && (a[0] < b[0] || (a[0] == b[0] && StrLe(a[1..], b[1..]))))
  }

  function Rank(k: Key): nat {
    match k
    case KBool(_) => 0
    case KInt(_) => 1
    case KReal(_) => 2
    case KStr(_) => 3
  }

  predicate KeyLe(a: Key, b: Key) {
    if Rank(a) != Rank(b) then Rank(a) < Rank(b)
    else match a
      case KInt(x) => x <= b.i
      case KReal(x) => x <= b.r
      case KStr(x) => StrLe(x, b.s)
      case KBool(x) => !x || b.b
  }

  lemma {:induction false} StrLeTotal(a: string, b: string)
    ensures StrLe(a, b) || StrLe(b, a)
    decreases |a|
  {
    if |a| > 0 && |b| > 0 && a[0] == b[0] {
      StrLeTotal(a[1..], b[1..]);
    }
  }

  lemma {:induction false} StrLeTransitive(a: string, b: string, c: string)
    requires StrLe(a, b) && StrLe(b, c)
    ensures StrLe(a, c)
    decreases |a|
  {
    if |a| > 0 && a[0] == b[0] && b[0] == c[0] {
      StrLeTransitive(a[1..], b[1..], c[1..]);
    }
  }

  lemma KeyLeTotal(a: Key, b: Key)
    ensures KeyLe(a, b) || KeyLe(b, a)
  {
    if a.KStr? && b.KStr? {
      StrLeTotal(a.s, b.s);
    }
  }

  lemma KeyLeTransitive(a: Key, b: Key, c: Key)
    requires KeyLe(a, b) && KeyLe(b, c)
    ensures KeyLe(a, c)
  {
    if a.KStr? && b.KStr? && c.KStr? {
      StrLeTransitive(a.s, b.s, c.s);
    }
  }

  /** `x` may precede `y` in a listing ordered ascending (or, when `desc`, descending) by `key`. */
  predicate InOrder<T>(key: T -> Key, desc: bool, x: T, y: T) {
    if desc then KeyLe(key(y), key(x)) else KeyLe(key(x), key(y))
  }

  predicate Sorted<T>(key: T -> Key, desc: bool, s: seq<T>) {
    forall i, j :: 0 <= i < j < |s| ==> InOrder(key, desc, s[i], s[j])
  }

  function Insert<T>(key: T -> Key, desc: bool, x: T, s: seq<T>): (r: seq<T>)
    requires Sorted(key, desc, s)
    ensures Sorted(key, desc, r)
    ensures multiset(r) == multiset(s) + multiset{x}
    decreases |s|
  {
    if |s| == 0 then [x]
    else if InOrder(key, desc, x, s[0]) then
      InsertAtFront(key, desc, x, s);
      [x] + s
    else
      var rest := Insert(key, desc, x, s[1..]);
      InsertBehind(key, desc, x, s, rest);
      assert s == [s[0]] + s[1..];
      [s[0]] + rest
  }

  lemma InsertAtFront<T>(key: T -> Key, desc: bool, x: T, s: seq<T>)
    requires Sorted(key, desc, s) && |s| > 0 && InOrder(key, desc, x, s[0])
    ensures Sorted(key, desc, [x] + s)
  {
    var r := [x] + s;
    forall i, j | 0 <= i < j < |r|
      ensures InOrder(key, desc, r[i], r[j])
    {
      if i == 0 && j > 1 {
        InOrderTransitive(key, desc, x, s[0], s[j - 1]);
      }
    }
  }

  lemma InsertBehind<T>(key: T -> Key, desc: bool, x: T, s: seq<T>, rest: seq<T>)
    requires Sorted(key, desc, s) && |s| > 0 && !InOrder(key, desc, x, s[0])
    requires Sorted(key, desc, rest)
    requires multiset(rest) == multiset(s[1..]) + multiset{x}
    ensures Sorted(key, desc, [s[0]] + rest)
  {
    InOrderTotal(key, desc, x, s[0]);
    var r := [s[0]] + rest;
    forall j | 0 <= j < |rest|
      ensures InOrder(key, desc, s[0], rest[j])
    {
      assert rest[j] in multiset(rest);
      if rest[j] != x {
        assert rest[j] in multiset(s[1..]);
        var k :| 0 <= k < |s[1..]| && s[1..][k] == rest[j];
        assert s[k + 1] == rest[j];
      }
    }
    forall i, j | 0 <= i < j < |r|
      ensures InOrder(key, desc, r[i], r[j])
    {
      if i > 0 {
        assert r[i] == rest[i - 1] && r[j] == rest[j - 1];
      } else {
        assert r[j] == rest[j - 1];
      }
    }
  }

  lemma InOrderTotal<T>(key: T -> Key, desc: bool, x: T, y: T)
    ensures InOrder(key, desc, x, y) || InOrder(key, desc, y, x)
  {
    KeyLeTotal(key(x), key(y));
  }

  lemma InOrderTransitive<T>(key: T -> Key, desc: bool, x: T, y: T, z: T)
    requires InOrder(key, desc, x, y) && InOrder(key, desc, y, z)
    ensures InOrder(key, desc, x, z)
  {
    if desc {
      KeyLeTransitive(key(z), key(y), key(x));
    } else {
      KeyLeTransitive(key(x), key(y), key(z));
    }
  }

  /** The rows ordered by `key`, ascending or (when `desc`) descending; rows
      with equal keys may come in any order, as the database leaves them. */
  function Sort<T>(key: T -> Key, desc: bool, s: seq<T>): (r: seq<T>)
    ensures Sorted(key, desc, r)
    ensures multiset(r) == multiset(s)
    decreases |s|
  {
    if |s| == 0 then []
    else
      assert s == [s[0]] + s[1..];
      Insert(key, desc, s[0], Sort(key, desc, s[1..]))
  }

  /** `skip`/`take` with a non-negative `take`. */
  function Window<T>(s: seq<T>, skip: nat, take: nat): (r: seq<T>)
    ensures |r| == (if skip >= |s| then 0 else if |s| - skip < take then |s| - skip else take)
    ensures skip <= |s| ==> r == s[skip..skip + |r|]
  {
    if skip >= |s| then []
    else if skip + take <= |s| then s[skip..skip + take]
    else s[skip..]
  }

  function Reverse<T>(s: seq<T>): (r: seq<T>)
    ensures |r| == |s|
    ensures forall i :: 0 <= i < |s| ==> r[i] == s[|s| - 1 - i]
  {
    if |s| == 0 then [] else Reverse(s[1..]) + [s[0]]
  }

  /** A row of a table: its primary key and its record. */
  datatype Row<V> = Row(id: int, rec: V)

  /** The rows of `table` with ids in `[0, n)` whose record satisfies `keep`,
      in ascending id order: what the database scans before ordering. */
  function Scan<V>(table: map<int, V>, keep: V -> bool, n: nat): (rows: seq<Row<V>>)
    ensures forall i :: 0 <= i < |rows| ==>
      0 <= rows[i].id < n && rows[i].id in table && table[rows[i].id] == rows[i].rec && keep(rows[i].rec)
    ensures forall k :: 0 <= k < n && k in table && keep(table[k]) ==> Row(k, table[k]) in rows
    ensures forall i, j :: 0 <= i < j < |rows| ==> rows[i].id < rows[j].id
  {
    if n == 0 then []
    else
      var k := n - 1;
      var prefix := Scan(table, keep, k);
      if k in table && keep(table[k]) then prefix + [Row(k, table[k])] else prefix
  }

  /** A sequence without repeats holds each value at most once. */
  lemma {:induction false} DistinctOccursOnce<T>(s: seq<T>, x: T)
    requires forall i, j :: 0 <= i < j < |s| ==> s[i] != s[j]
    ensures multiset(s)[x] <= 1
  {
    if |s| > 0 {
      var init := s[..|s| - 1];
      assert s == init + [s[|s| - 1]];
      DistinctOccursOnce(init, x);
      if x == s[|s| - 1] {
        assert x !in init by {
          forall i | 0 <= i < |init| ensures init[i] != x {
            assert s[i] != s[|s| - 1];
          }
        }
      }
    }
  }

  /** A value found at two positions occurs at least twice. */
  lemma RepeatCountsTwice<T>(s: seq<T>, i: int, j: int)
    requires 0 <= i < j < |s| && s[i] == s[j]
    ensures multiset(s)[s[i]] >= 2
  {
    assert s == s[..j] + [s[j]] + s[j + 1..];
    assert s[..j][i] == s[i];
    assert s[i] in multiset(s[..j]);
  }

  /** The scan depends on the filter only through the values it gives. */
  lemma {:induction false} ScanAgrees<V>(table: map<int, V>, keep: V -> bool, keep': V -> bool, n: nat)
    requires forall v :: keep(v) == keep'(v)
    ensures Scan(table, keep, n) == Scan(table, keep', n)
  {
    if n > 0 {
      ScanAgrees(table, keep, keep', n - 1);
    }
  }

  /** Two windows of the same size, one after the other, make one window of twice the size. */
  lemma WindowsAdjoin<T>(s: seq<T>, skip: nat, take: nat)
    ensures Window(s, skip, take) + Window(s, skip + take, take) == Window(s, skip, 2 * take)
  {
    if skip + take < |s| {
      assert s[skip..skip + take] + Window(s, skip + take, take) == s[skip..skip + |Window(s, skip, 2 * take)|];
    }
  }
}
