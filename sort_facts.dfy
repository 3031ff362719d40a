/**
 * `sync_data_for_local.sort(key=itemgetter(sorting_key))`
 * (app/src/endpoints/sync.py, line 120) as the model performs it: the client
 * entries are sorted by their integer sort values, stably, and none is added
 * or lost.
 */
module SortFacts {
  import opened Records
  import opened SyncSpec
  import Sorting

  /** The sort value of a client entry as the sort compares it. */
  function SortValue(e: Entry, k: string): int {
    AsInt(Get(e.rec, k))
  }

  /** The entries whose sort value is `v`, in their order in `client`. */
  function EntriesAt(client: seq<Entry>, k: string, v: int): seq<Entry> {
    if client == [] then []
    else (if SortValue(client[0], k) == v then [client[0]] else []) + EntriesAt(client[1..], k, v)
  }

  function Items(s: seq<Sorting.Keyed<Entry>>): seq<Entry> {
    seq(|s|, i requires 0 <= i < |s| => s[i].item)
  }

  /** Every element carries the sort value of its entry as its key. */
  ghost predicate KeyedBy(s: seq<Sorting.Keyed<Entry>>, k: string) {
    forall i | 0 <= i < |s| :: s[i].key == SortValue(s[i].item, k)
  }

  lemma KeyedItems(client: seq<Entry>, k: string)
    ensures Items(Keyed(client, k)) == client && KeyedBy(Keyed(client, k), k)
  {
  }

  /** The sorted keyed list still pairs each entry with its own sort value. */
  lemma SortedKeyedBy(client: seq<Entry>, k: string)
    ensures KeyedBy(Sorting.Sort(Keyed(client, k)), k)
    ensures SortEntries(client, k) == Items(Sorting.Sort(Keyed(client, k)))
  {
    var keyed := Keyed(client, k);
    var sorted := Sorting.Sort(keyed);
    Sorting.SortPermutes(keyed);
    forall i | 0 <= i < |sorted| ensures sorted[i].key == SortValue(sorted[i].item, k) {
      assert sorted[i] in multiset(keyed);
      var j :| 0 <= j < |keyed| && keyed[j] == sorted[i];
    }
  }

  lemma {:induction false} ItemsWithKey(s: seq<Sorting.Keyed<Entry>>, k: string, v: int)
    requires KeyedBy(s, k)
    ensures Items(Sorting.WithKey(s, v)) == EntriesAt(Items(s), k, v)
    decreases |s|
  {
    if s != [] {
      assert KeyedBy(s[1..], k) by {
        forall i | 0 <= i < |s[1..]| ensures s[1..][i].key == SortValue(s[1..][i].item, k) {
          assert s[1..][i] == s[i + 1];
        }
      }
      ItemsWithKey(s[1..], k, v);
      assert Items(s)[1..] == Items(s[1..]);
      var head := if s[0].key == v then [s[0]] else [];
      assert Items(head + Sorting.WithKey(s[1..], v)) == Items(head) + Items(Sorting.WithKey(s[1..], v));
    }
  }

  lemma {:induction false} InsertItems(x: Sorting.Keyed<Entry>, s: seq<Sorting.Keyed<Entry>>)
    ensures multiset(Items(Sorting.Insert(x, s))) == multiset(Items(s)) + multiset{x.item}
    decreases |s|
  {
    if s == [] {
      assert Items([x]) == [x.item];
    } else if x.key < s[0].key {
      assert Items([x] + s) == [x.item] + Items(s);
    } else {
      InsertItems(x, s[1..]);
      assert Items([s[0]] + Sorting.Insert(x, s[1..])) == [s[0].item] + Items(Sorting.Insert(x, s[1..]));
      assert Items(s) == [s[0].item] + Items(s[1..]);
    }
  }

  lemma {:induction false} SortItems(s: seq<Sorting.Keyed<Entry>>)
    ensures multiset(Items(Sorting.Sort(s))) == multiset(Items(s))
    decreases |s|
  {
    if s != [] {
      var init, last := s[..|s| - 1], s[|s| - 1];
      SortItems(init);
      InsertItems(last, Sorting.Sort(init));
      assert s == init + [last];
      assert Items(s) == Items(init) + [last.item];
    }
  }

  /** The sort rearranges the client entries: none is added, lost or duplicated. */
  lemma SortEntriesPermutes(client: seq<Entry>, k: string)
    ensures multiset(SortEntries(client, k)) == multiset(client)
  {
    var keyed := Keyed(client, k);
    KeyedItems(client, k);
    SortedKeyedBy(client, k);
    SortItems(keyed);
  }

  /** Afterwards the sort values ascend. */
  lemma SortEntriesSorted(client: seq<Entry>, k: string)
    ensures var r := SortEntries(client, k);
            forall i, j | 0 <= i < j < |r| :: SortValue(r[i], k) <= SortValue(r[j], k)
  {
    var sorted := Sorting.Sort(Keyed(client, k));
    Sorting.SortSorted(Keyed(client, k));
    SortedKeyedBy(client, k);
  }

  /** Stability: entries with equal sort values keep their original order. */
  lemma SortEntriesStable(client: seq<Entry>, k: string, v: int)
    ensures EntriesAt(SortEntries(client, k), k, v) == EntriesAt(client, k, v)
  {
    var keyed := Keyed(client, k);
    var sorted := Sorting.Sort(keyed);
    KeyedItems(client, k);
    SortedKeyedBy(client, k);
    Sorting.SortIsStable(keyed, v);
    ItemsWithKey(sorted, k, v);
    ItemsWithKey(keyed, k, v);
  }
}
