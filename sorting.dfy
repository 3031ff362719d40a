/**
 * Python's `list.sort(key=...)` on integer keys: a stable sort. Each element
 * travels with its key; the sort is an insertion sort that places every
 * element after all elements whose key is not larger, and it is
 * characterised by sortedness, permutation and stability.
 */
module Sorting {

  datatype Keyed<T> = Keyed(key: int, item: T)

  ghost predicate Sorted<T>(s: seq<Keyed<T>>) {
    forall i, j :: 0 <= i < j < |s| ==> s[i].key <= s[j].key
  }

  /** The elements of `s` whose key is `v`, in their order in `s`. */
  function WithKey<T>(s: seq<Keyed<T>>, v: int): seq<Keyed<T>> {
    if s == [] then []
    else (if s[0].key == v then [s[0]] else []) + WithKey(s[1..], v)
  }

  /** Inserts `x` before the first element whose key is larger than `x`'s. */
  function Insert<T>(x: Keyed<T>, s: seq<Keyed<T>>): (r: seq<Keyed<T>>)
    ensures |r| == |s| + 1
  {
    if s == [] then [x]
    else if x.key < s[0].key then [x] + s
    else [s[0]] + Insert(x, s[1..])
  }

  function Sort<T>(s: seq<Keyed<T>>): (r: seq<Keyed<T>>)
    ensures |r| == |s|
  {
    if s == [] then []
    else Insert(s[|s| - 1], Sort(s[..|s| - 1]))
  }

  lemma {:induction false} InsertPermutes<T>(x: Keyed<T>, s: seq<Keyed<T>>)
    ensures multiset(Insert(x, s)) == multiset(s) + multiset{x}
    decreases |s|
  {
    if s != [] && s[0].key <= x.key {
      InsertPermutes(x, s[1..]);
      assert s == [s[0]] + s[1..];
    }
  }

  lemma SortedTail<T>(s: seq<Keyed<T>>)
    requires Sorted(s) && s != []
    ensures Sorted(s[1..])
    ensures forall i :: 0 <= i < |s| ==> s[0].key <= s[i].key
  {
    forall i, j | 0 <= i < j < |s[1..]| ensures s[1..][i].key <= s[1..][j].key {
      assert s[1..][i] == s[i + 1] && s[1..][j] == s[j + 1];
    }
  }

  lemma {:induction false} InsertSorted<T>(x: Keyed<T>, s: seq<Keyed<T>>)
    requires Sorted(s)
    ensures Sorted(Insert(x, s))
    decreases |s|
  {
    if s != [] && s[0].key <= x.key {
      SortedTail(s);
      InsertSorted(x, s[1..]);
      InsertPermutes(x, s[1..]);
      var rest := Insert(x, s[1..]);
      forall i | 0 <= i < |rest| ensures s[0].key <= rest[i].key {
        assert rest[i] in multiset(rest);
        if rest[i] != x {
          assert rest[i] in multiset(s[1..]);
          var j :| 0 <= j < |s[1..]| && s[1..][j] == rest[i];
          assert s[1..][j] == s[j + 1];
        }
      }
      var r := [s[0]] + rest;
      forall i, j | 0 <= i < j < |r| ensures r[i].key <= r[j].key {
        assert r[j] == rest[j - 1];
        if i > 0 {
          assert r[i] == rest[i - 1];
        }
      }
    }
  }

  /** The sort puts keys in ascending order. */
  lemma {:induction false} SortSorted<T>(s: seq<Keyed<T>>)
    ensures Sorted(Sort(s))
    decreases |s|
  {
    if s != [] {
      SortSorted(s[..|s| - 1]);
      InsertSorted(s[|s| - 1], Sort(s[..|s| - 1]));
    }
  }

  /** The sort rearranges its input and neither adds nor drops an element. */
  lemma {:induction false} SortPermutes<T>(s: seq<Keyed<T>>)
    ensures multiset(Sort(s)) == multiset(s)
    decreases |s|
  {
    if s != [] {
      SortPermutes(s[..|s| - 1]);
      InsertPermutes(s[|s| - 1], Sort(s[..|s| - 1]));
      assert s == s[..|s| - 1] + [s[|s| - 1]];
    }
  }

  lemma {:induction false} WithKeyAppend<T>(a: seq<Keyed<T>>, b: seq<Keyed<T>>, v: int)
    ensures WithKey(a + b, v) == WithKey(a, v) + WithKey(b, v)
    decreases |a|
  {
    if a == [] {
      assert a + b == b;
    } else {
      var head := if a[0].key == v then [a[0]] else [];
      calc {
        WithKey(a + b, v);
      ==  { assert (a + b)[0] == a[0] && (a + b)[1..] == a[1..] + b; }
        head + WithKey(a[1..] + b, v);
      ==  { WithKeyAppend(a[1..], b, v); }
        head + (WithKey(a[1..], v) + WithKey(b, v));
      ==
        (head + WithKey(a[1..], v)) + WithKey(b, v);
      }
    }
  }

  lemma {:induction false} WithKeyAbove<T>(s: seq<Keyed<T>>, v: int)
    requires forall i :: 0 <= i < |s| ==> v < s[i].key
    ensures WithKey(s, v) == []
    decreases |s|
  {
    if s != [] {
      WithKeyAbove(s[1..], v);
    }
  }

  lemma {:induction false} WithKeyInsert<T>(x: Keyed<T>, s: seq<Keyed<T>>, v: int)
    requires Sorted(s)
    ensures WithKey(Insert(x, s), v) == WithKey(s, v) + (if x.key == v then [x] else [])
    decreases |s|
  {
    var hx := if x.key == v then [x] else [];
    if s == [] {
      assert WithKey([x], v) == hx + WithKey([], v);
    } else if x.key < s[0].key {
      calc {
        WithKey(Insert(x, s), v);
      ==  { assert ([x] + s)[0] == x && ([x] + s)[1..] == s; }
        hx + WithKey(s, v);
      ==  { if x.key == v { SortedTail(s); WithKeyAbove(s, v); } }
        WithKey(s, v) + hx;
      }
    } else {
      SortedTail(s);
      var rest := Insert(x, s[1..]);
      var h0 := if s[0].key == v then [s[0]] else [];
      calc {
        WithKey(Insert(x, s), v);
      ==  { assert ([s[0]] + rest)[0] == s[0] && ([s[0]] + rest)[1..] == rest; }
        h0 + WithKey(rest, v);
      ==  { WithKeyInsert(x, s[1..], v); }
        h0 + (WithKey(s[1..], v) + hx);
      ==
        (h0 + WithKey(s[1..], v)) + hx;
      }
    }
  }

  /**
   * Stability: for every key, the elements carrying it keep their relative
   * order.
   */
  lemma {:induction false} SortIsStable<T>(s: seq<Keyed<T>>, v: int)
    ensures WithKey(Sort(s), v) == WithKey(s, v)
    decreases |s|
  {
    if s != [] {
      var init, last := s[..|s| - 1], s[|s| - 1];
      SortSorted(init);
      SortIsStable(init, v);
      WithKeyInsert(last, Sort(init), v);
      WithKeyAppend(init, [last], v);
      assert s == init + [last];
    }
  }
}
