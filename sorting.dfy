/** Sorting by a key, as Python's `sorted(items, key=..., reverse=...)` does for the
    listings of the console: inference history by timestamp, projects by `updated_at`,
    project files by name. Keys are numbers or strings; strings compare by code point. */
module Sorting {

  datatype Key = Num(n: real) | Str(s: string)

  /** Lexicographic order on strings by code point, as Python compares `str`. */
  predicate StrLe(a: string, b: string)
    decreases |a|
  {
    a == [] || (b != [] && (a[0] < b[0] || (a[0] == b[0] && StrLe(a[1..], b[1..]))))
  }

  /** The order on keys. Numbers sort before strings; no listing mixes the two. */
  predicate KeyLe(a: Key, b: Key) {
    match (a, b)
    case (Num(x), Num(y)) => x <= y
    case (Str(x), Str(y)) => StrLe(x, y)
    case (Num(_), Str(_)) => true
    case (Str(_), Num(_)) => false
  }

  lemma {:induction false} StrLeTotal(a: string, b: string)
    ensures StrLe(a, b) || StrLe(b, a)
    decreases |a|
  {
    if a != [] && b != [] && a[0] == b[0] {
      StrLeTotal(a[1..], b[1..]);
    }
  }

  lemma {:induction false} StrLeTrans(a: string, b: string, c: string)
    requires StrLe(a, b) && StrLe(b, c)
    ensures StrLe(a, c)
    decreases |a|
  {
    if a != [] && b != [] && c != [] && a[0] == b[0] && b[0] == c[0] {
      StrLeTrans(a[1..], b[1..], c[1..]);
    }
  }

  lemma KeyLeTotal(a: Key, b: Key)
    ensures KeyLe(a, b) || KeyLe(b, a)
  {
    if a.Str? && b.Str? { StrLeTotal(a.s, b.s); }
  }

  lemma KeyLeTrans(a: Key, b: Key, c: Key)
    requires KeyLe(a, b) && KeyLe(b, c)
    ensures KeyLe(a, c)
  {
    if a.Str? && b.Str? && c.Str? { StrLeTrans(a.s, b.s, c.s); }
  }

  /** `a` may stand before `b` in ascending (`desc` false) or descending order. */
  predicate Precedes(a: Key, b: Key, desc: bool) {
    if desc then KeyLe(b, a) else KeyLe(a, b)
  }

  lemma PrecedesTotal(a: Key, b: Key, desc: bool)
    ensures Precedes(a, b, desc) || Precedes(b, a, desc)
  {
    KeyLeTotal(a, b);
  }

  lemma PrecedesTrans(a: Key, b: Key, c: Key, desc: bool)
    requires Precedes(a, b, desc) && Precedes(b, c, desc)
    ensures Precedes(a, c, desc)
  {
    if desc { KeyLeTrans(c, b, a); } else { KeyLeTrans(a, b, c); }
  }

  ghost predicate SortedBy<T>(s: seq<T>, key: T -> Key, desc: bool) {
    forall i, j :: 0 <= i < j < |s| ==> Precedes(key(s[i]), key(s[j]), desc)
  }

  /** Inserts `x` before the first element it may precede, so that among equal keys the
      earlier element stays first. */
  function Insert<T>(x: T, s: seq<T>, key: T -> Key, desc: bool): (r: seq<T>)
    requires SortedBy(s, key, desc)
    ensures SortedBy(r, key, desc)
    ensures multiset(r) == multiset(s) + multiset{x}
    decreases |s|
  {
    if s == [] then [x]
    else if Precedes(key(x), key(s[0]), desc) then
      InsertFront(x, s, key, desc);
      [x] + s
    else
      var rest := Insert(x, s[1..], key, desc);
      PrecedesTotal(key(x), key(s[0]), desc);
      InsertBehind(s[0], x, s[1..], rest, key, desc);
      assert s == [s[0]] + s[1..];
      [s[0]] + rest
  }

  lemma InsertFront<T>(x: T, s: seq<T>, key: T -> Key, desc: bool)
    requires SortedBy(s, key, desc) && s != [] && Precedes(key(x), key(s[0]), desc)
    ensures SortedBy([x] + s, key, desc)
  {
    var r := [x] + s;
    forall i, j | 0 <= i < j < |r| ensures Precedes(key(r[i]), key(r[j]), desc) {
      if i == 0 && j > 1 {
        PrecedesTrans(key(x), key(s[0]), key(s[j - 1]), desc);
      }
    }
  }

  lemma InsertBehind<T>(h: T, x: T, t: seq<T>, rest: seq<T>, key: T -> Key, desc: bool)
    requires SortedBy([h] + t, key, desc) && SortedBy(rest, key, desc)
    requires Precedes(key(h), key(x), desc)
    requires multiset(rest) == multiset(t) + multiset{x}
    ensures SortedBy([h] + rest, key, desc)
  {
    var r := [h] + rest;
    forall i, j | 0 <= i < j < |r| ensures Precedes(key(r[i]), key(r[j]), desc) {
      assert r[j] == rest[j - 1];
      if i == 0 {
        var e := rest[j - 1];
        assert e in multiset(rest);
        if e != x {
          assert e in multiset(t);
          var k :| 0 <= k < |t| && t[k] == e;
          assert ([h] + t)[0] == h && ([h] + t)[k + 1] == e;
        }
      } else {
        assert r[i] == rest[i - 1];
      }
    }
  }

  /** `sorted(s, key=key, reverse=desc)`: a sorted permutation of `s`. */
  function SortBy<T>(s: seq<T>, key: T -> Key, desc: bool): (r: seq<T>)
    ensures SortedBy(r, key, desc)
    ensures multiset(r) == multiset(s)
    ensures |r| == |s|
    decreases |s|
  {
    if s == [] then []
    else
      assert s == [s[0]] + s[1..];
      Insert(s[0], SortBy(s[1..], key, desc), key, desc)
  }

  /** Sorting keeps exactly the elements it was given: membership is unchanged. */
  lemma SortByMembers<T>(s: seq<T>, key: T -> Key, desc: bool, x: T)
    ensures x in SortBy(s, key, desc) <==> x in s
  {
    var r := SortBy(s, key, desc);
    assert x in r <==> x in multiset(r);
    assert x in s <==> x in multiset(s);
  }
}
