/**
  The ordering the record store uses for its listings. Timestamps are TEXT
  columns, and `ORDER BY ... DESC` under SQLite's default BINARY collation
  compares their UTF-8 bytes, which orders strings lexicographically by
  code point. Both listings are built by inserting rows one at a time into
  a sequence kept in descending key order.
*/
module LexOrder {

  /** `a` sorts at or before `b` in code-point lexicographic order. */
  predicate TextLe(a: string, b: string)
    decreases |a|
  {
    |a| == 0 || (|b| > 0 && (a[0] < b[0] || (a[0] == b[0] && TextLe(a[1..], b[1..]))))
  }

  lemma {:induction false} TextLeReflexive(a: string)
    ensures TextLe(a, a)
  {
    if |a| > 0 {
      TextLeReflexive(a[1..]);
    }
  }

  lemma {:induction false} TextLeTotal(a: string, b: string)
    ensures TextLe(a, b) || TextLe(b, a)
  {
    if |a| > 0 && |b| > 0 && a[0] == b[0] {
      TextLeTotal(a[1..], b[1..]);
    }
  }

  lemma {:induction false} TextLeAntisymmetric(a: string, b: string)
    requires TextLe(a, b) && TextLe(b, a)
    ensures a == b
  {
    if |a| > 0 {
      TextLeAntisymmetric(a[1..], b[1..]);
      assert a == [a[0]] + a[1..];
      assert b == [b[0]] + b[1..];
    }
  }

  lemma {:induction false} TextLeTransitive(a: string, b: string, c: string)
    requires TextLe(a, b) && TextLe(b, c)
    ensures TextLe(a, c)
  {
    if |a| > 0 && a[0] == b[0] && b[0] == c[0] {
      TextLeTransitive(a[1..], b[1..], c[1..]);
    }
  }

  /** Every element's key is at or after the key of every element behind it. */
  ghost predicate SortedDesc<T>(s: seq<T>, key: T -> string)
  {
    forall i, j :: 0 <= i < j < |s| ==> TextLe(key(s[j]), key(s[i]))
  }

  /**
    Inserts `x` in front of the first element whose key is not greater
    than its own: one step of building a descending listing.
  */
  function InsertDesc<T>(s: seq<T>, x: T, key: T -> string): (r: seq<T>)
    ensures multiset(r) == multiset(s) + multiset{x}
    decreases |s|
  {
    if |s| == 0 then [x]
    else if TextLe(key(s[0]), key(x)) then [x] + s
    else
      assert s == [s[0]] + s[1..];
      [s[0]] + InsertDesc(s[1..], x, key)
  }

  /** Inserting keeps every key at or before a common bound. */
  lemma {:induction false} InsertDescBounded<T>(s: seq<T>, x: T, key: T -> string, bound: string)
    requires forall i :: 0 <= i < |s| ==> TextLe(key(s[i]), bound)
    requires TextLe(key(x), bound)
    ensures forall i :: 0 <= i < |InsertDesc(s, x, key)| ==> TextLe(key(InsertDesc(s, x, key)[i]), bound)
    decreases |s|
  {
    if |s| > 0 && !TextLe(key(s[0]), key(x)) {
      InsertDescBounded(s[1..], x, key, bound);
    }
  }

  lemma {:induction false} InsertDescSorted<T>(s: seq<T>, x: T, key: T -> string)
    requires SortedDesc(s, key)
    ensures SortedDesc(InsertDesc(s, x, key), key)
    decreases |s|
  {
    if |s| == 0 {
    } else if TextLe(key(s[0]), key(x)) {
      var r := InsertDesc(s, x, key);
      assert r == [x] + s;
      forall j | 1 < j < |r| ensures TextLe(key(r[j]), key(r[0])) {
        TextLeTransitive(key(s[j - 1]), key(s[0]), key(x));
      }
    } else {
      TextLeTotal(key(s[0]), key(x));
      var tail := InsertDesc(s[1..], x, key);
      InsertDescSorted(s[1..], x, key);
      InsertDescBounded(s[1..], x, key, key(s[0]));
      assert InsertDesc(s, x, key) == [s[0]] + tail;
    }
  }

  /** No element occurs twice. */
  ghost predicate Distinct<T>(s: seq<T>)
  {
    forall i, j :: 0 <= i < j < |s| ==> s[i] != s[j]
  }

  /** Inserting a new element into a listing without repeats leaves it without repeats. */
  lemma {:induction false} InsertDescDistinct<T>(s: seq<T>, x: T, key: T -> string)
    requires Distinct(s) && x !in s
    ensures Distinct(InsertDesc(s, x, key))
    decreases |s|
  {
    if |s| > 0 && !TextLe(key(s[0]), key(x)) {
      InsertDescDistinct(s[1..], x, key);
      var tail := InsertDesc(s[1..], x, key);
      var r := InsertDesc(s, x, key);
      assert r == [s[0]] + tail;
      forall i, j | 0 <= i < j < |r| ensures r[i] != r[j] {
        if i == 0 {
          var e := tail[j - 1];
          assert e in multiset(tail);
          if e != x {
            assert e in multiset(s[1..]);
            assert e in s[1..];
          }
        }
      }
    }
  }

  /**
    In a descending listing a row that comes after another with a key at
    least as large has exactly the same key: ties are the only freedom.
  */
  lemma SortedDescTie<T>(s: seq<T>, key: T -> string, i: int, j: int)
    requires SortedDesc(s, key) && 0 <= i < j < |s|
    requires TextLe(key(s[i]), key(s[j]))
    ensures key(s[i]) == key(s[j])
  {
    TextLeAntisymmetric(key(s[i]), key(s[j]));
  }

  /** Rows sharing one key are descending in every order. */
  lemma EqualKeysSorted<T>(s: seq<T>, key: T -> string)
    requires forall i :: 0 <= i < |s| ==> key(s[i]) == key(s[0])
    ensures SortedDesc(s, key)
  {
    if |s| > 0 {
      TextLeReflexive(key(s[0]));
    }
  }

  /**
    `SELECT * FROM table ORDER BY key DESC` over a table keyed by id, whose
    rows each carry their own id and so are pairwise different: every row
    exactly once, latest key first. Rows with equal keys may come in any
    order.
  */
  method ListDesc<T(==)>(table: map<string, T>, key: T -> string) returns (listing: seq<T>)
    requires forall a, b :: a in table && b in table && table[a] == table[b] ==> a == b
    ensures |listing| == |table|
    ensures forall i :: 0 <= i < |listing| ==> listing[i] in table.Values
    ensures forall id :: id in table ==> table[id] in listing
    ensures Distinct(listing)
    ensures SortedDesc(listing, key)
    ensures forall i, j :: 0 <= i < j < |listing| && TextLe(key(listing[i]), key(listing[j])) ==>
      key(listing[i]) == key(listing[j])
  {
    listing := [];
    var remaining := table.Keys;
    while remaining != {}
      invariant remaining <= table.Keys
      invariant |listing| + |remaining| == |table|
      invariant forall e :: e in listing ==> e in table.Values
      invariant forall id :: id in table && id !in remaining ==> table[id] in listing
      invariant forall id :: id in remaining ==> table[id] !in listing
      invariant Distinct(listing)
      invariant SortedDesc(listing, key)
      decreases |remaining|
    {
      var id :| id in remaining;
      var row := table[id];
      assert row in table.Values;
      InsertDescSorted(listing, row, key);
      InsertDescDistinct(listing, row, key);
      var next := InsertDesc(listing, row, key);
      forall e | e in next ensures e in table.Values && (e == row || e in listing) {
        assert e in multiset(next);
        if e != row {
          assert e in multiset(listing);
        }
      }
      forall e | e in listing ensures e in next {
        assert e in multiset(listing);
        assert e in multiset(next);
      }
      assert row in multiset(next);
      listing := next;
      remaining := remaining - {id};
    }
    forall i, j | 0 <= i < j < |listing| && TextLe(key(listing[i]), key(listing[j]))
      ensures key(listing[i]) == key(listing[j])
    {
      SortedDescTie(listing, key, i, j);
    }
  }
}
