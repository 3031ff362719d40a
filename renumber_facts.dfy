/**
 * `__sorting_value_validation_and_correction` (app/src/endpoints/sync.py,
 * lines 112-140) on a coherent working state: the sort keeps coherence, the
 * renumbering always finishes, numbers the client list densely from 0,
 * changes nothing but the sort field, and mirrors every rewritten value
 * onto the paired server record.
 */
module RenumberFacts {
  import opened Records
  import opened Config
  import opened SyncSpec
  import opened Coherence
  import SortFacts

  // ---------------------------------------------------------------------
  // The sort keeps the state coherent
  // ---------------------------------------------------------------------

  /** Distinct unique keys mean no entry occurs twice. */
  lemma {:induction false} CountAtMostOne(cfg: Settings, c: seq<Entry>, x: Entry)
    requires KeysDistinct(cfg, c)
    ensures multiset(c)[x] <= 1
    decreases |c|
  {
    if c != [] {
      var t := c[1..];
      assert c == [c[0]] + t;
      assert KeysDistinct(cfg, t) by {
        forall i, j | 0 <= i < j < |t| ensures KeyOf(cfg, t[i]) != KeyOf(cfg, t[j]) {
          assert t[i] == c[i + 1] && t[j] == c[j + 1];
        }
      }
      CountAtMostOne(cfg, t, x);
      if c[0] == x {
        assert x !in t by {
          forall m | 0 <= m < |t| ensures t[m] != x {
            assert t[m] == c[m + 1];
          }
        }
      }
    }
  }

  lemma TwoPositions(c: seq<Entry>, i: nat, j: nat)
    requires i < j < |c| && c[i] == c[j]
    ensures multiset(c)[c[i]] >= 2
  {
    assert c == c[..j] + [c[j]] + c[j + 1..];
    assert c[..j][i] == c[i];
    assert c[i] in multiset(c[..j]);
  }

  lemma SameKeySame(cfg: Settings, c: seq<Entry>, a: nat, b: nat)
    requires KeysDistinct(cfg, c) && a < |c| && b < |c| && KeyOf(cfg, c[a]) == KeyOf(cfg, c[b])
    ensures a == b
  {
    if a != b {
      KeysDiffer(cfg, c, a, b);
    }
  }

  lemma SortKeepsCoherent(cfg: Settings, k: string, w: Work)
    requires Coherent(cfg, w)
    ensures Coherent(cfg, w.(client := SortEntries(w.client, k)))
  {
    var sorted := SortEntries(w.client, k);
    var w' := w.(client := sorted);
    SortEntriesMembers(w.client, k);
    SortFacts.SortEntriesPermutes(w.client, k);
    forall i | 0 <= i < |sorted| ensures EntryHolds(cfg, w', sorted[i]) {
      var a :| 0 <= a < |w.client| && w.client[a] == sorted[i];
      assert EntryHolds(cfg, w, w.client[a]);
    }
    forall i, j | 0 <= i < j < |sorted| ensures KeyOf(cfg, sorted[i]) != KeyOf(cfg, sorted[j]) {
      var a :| 0 <= a < |w.client| && w.client[a] == sorted[i];
      var b :| 0 <= b < |w.client| && w.client[b] == sorted[j];
      if KeyOf(cfg, sorted[i]) == KeyOf(cfg, sorted[j]) {
        SameKeySame(cfg, w.client, a, b);
        TwoPositions(sorted, i, j);
        CountAtMostOne(cfg, w.client, sorted[i]);
        assert false;
      }
    }
  }

  // ---------------------------------------------------------------------
  // The renumbering loop
  // ---------------------------------------------------------------------

  /** No client entry from position `i` on is paired with slot `q`. */
  ghost predicate Untouched(cfg: Settings, w: Work, i: nat, q: nat) {
    forall j | i <= j < |w.client| :: !PairedTo(cfg, w, j, q)
  }

  /**
   * On a coherent state the loop cannot fail, keeps the state coherent, and
   * changes nothing but the field `k`.
   */
  lemma {:induction false} RenumberKeeps(cfg: Settings, k: string, w: Work, i: nat)
    requires Coherent(cfg, w) && k != cfg.uniqueKey && i <= |w.client|
    ensures Renumber(cfg, k, w, i).Ok?
    ensures var r := Renumber(cfg, k, w, i).value;
            Coherent(cfg, r) && OnlyField(cfg, k, w, r)
    decreases |w.client| - i
  {
    if i == |w.client| {
      assert Renumber(cfg, k, w, i) == Ok(w);
      OnlyFieldRefl(cfg, k, w);
    } else {
      var v := Int(Expected(k, w, i));
      if Get(w.client[i].rec, k) == Some(v) {
        SkipCase(cfg, k, w, i);
        RenumberKeeps(cfg, k, w, i + 1);
      } else {
        var w2 := Written(cfg, k, w, i, v);
        RewriteEffect(cfg, k, w, i, v);
        RewriteStep(cfg, k, w, i, w2);
        WrittenCoherent(cfg, k, w, i, v);
        WrittenOnlyField(cfg, k, w, i, v);
        RenumberKeeps(cfg, k, w2, i + 1);
        OnlyFieldTrans(cfg, k, w, w2, Renumber(cfg, k, w2, i + 1).value);
      }
    }
  }

  /** `w2` has the same shape as `w` and pairs the same entries with the same server records. */
  ghost predicate SamePairs(cfg: Settings, w: Work, w2: Work) {
    && |w2.client| == |w.client| && |w2.slots| == |w.slots|
    && forall j: nat, q: nat :: PairedTo(cfg, w2, j, q) == PairedTo(cfg, w, j, q)
  }

  /** What one rewrite at position `i` does, stated without the rewrite itself. */
  ghost predicate Rewrote(cfg: Settings, k: string, w: Work, i: nat, v: Value, w2: Work) {
    && i < |w.client|
    && SamePairs(cfg, w, w2)
    && (forall j | 0 <= j < |w.client| && j != i :: w2.client[j] == w.client[j])
    && Get(w2.client[i].rec, k) == Some(v)
    && (forall q | 0 <= q < |w.slots| && !PairedTo(cfg, w, i, q) :: w2.slots[q] == w.slots[q])
    && (forall q: nat {:trigger PairedTo(cfg, w, i, q)} | PairedTo(cfg, w, i, q) :: w2.slots[q].Some? && Get(w2.slots[q].value, k) == Some(v))
  }

  lemma WrittenRewrote(cfg: Settings, k: string, w: Work, i: nat, v: Value)
    requires Coherent(cfg, w) && k != cfg.uniqueKey && i < |w.client|
    ensures Coherent(cfg, Written(cfg, k, w, i, v)) && Rewrote(cfg, k, w, i, v, Written(cfg, k, w, i, v))
  {
    WrittenCoherent(cfg, k, w, i, v);
    WrittenOnlyField(cfg, k, w, i, v);
    OnlyFieldPairs(cfg, k, w, Written(cfg, k, w, i, v));
  }

  /** A position the loop rewrites, with the state after the rewrite. */
  lemma RewriteCase(cfg: Settings, k: string, w: Work, i: nat) returns (w2: Work)
    requires Coherent(cfg, w) && k != cfg.uniqueKey && i < |w.client|
    requires Get(w.client[i].rec, k) != Some(Int(Expected(k, w, i)))
    ensures Coherent(cfg, w2) && Rewrote(cfg, k, w, i, Int(Expected(k, w, i)), w2)
    ensures Renumber(cfg, k, w, i) == Renumber(cfg, k, w2, i + 1)
  {
    var v := Int(Expected(k, w, i));
    w2 := Written(cfg, k, w, i, v);
    RewriteEffect(cfg, k, w, i, v);
    RewriteStep(cfg, k, w, i, w2);
    WrittenRewrote(cfg, k, w, i, v);
  }

  /**
   * The loop's frame from position `i` on: the entries before `i` are left
   * alone, and so is every server record that no entry from `i` on is
   * paired with.
   */
  ghost predicate FrameFrom(cfg: Settings, w: Work, i: nat, r: Work) {
    && |r.client| == |w.client| && |r.slots| == |w.slots|
    && (forall j | 0 <= j < i && j < |w.client| :: r.client[j] == w.client[j])
    && (forall q | 0 <= q < |w.slots| && Untouched(cfg, w, i, q) :: r.slots[q] == w.slots[q])
  }

  lemma FrameSkipStep(cfg: Settings, w: Work, i: nat, r: Work)
    requires i < |w.client| && FrameFrom(cfg, w, i + 1, r)
    ensures FrameFrom(cfg, w, i, r)
  {
  }

  lemma FrameRewriteStep(cfg: Settings, k: string, w: Work, i: nat, v: Value, w2: Work, r: Work)
    requires Rewrote(cfg, k, w, i, v, w2) && FrameFrom(cfg, w2, i + 1, r)
    ensures FrameFrom(cfg, w, i, r)
  {
    forall q | 0 <= q < |w.slots| && Untouched(cfg, w, i, q) ensures r.slots[q] == w.slots[q] {
      assert !PairedTo(cfg, w, i, q);
      assert Untouched(cfg, w2, i + 1, q);
    }
  }

  /** Entry `j` holds its own position as its sort value. */
  ghost predicate NumberedAt(k: string, client: seq<Entry>, j: nat) {
    j < |client| && Get(client[j].rec, k) == Some(Int(j))
  }

  /** The entries before position `i` hold 0, 1, ..., `i - 1`. */
  ghost predicate DenseUpTo(k: string, client: seq<Entry>, i: nat) {
    forall j: nat | j < i && j < |client| :: NumberedAt(k, client, j)
  }

  lemma DenseExtend(k: string, client: seq<Entry>, i: nat)
    requires DenseUpTo(k, client, i) && NumberedAt(k, client, i)
    ensures DenseUpTo(k, client, i + 1)
  {
  }

  lemma DenseExpected(k: string, w: Work, i: nat)
    requires i < |w.client| && DenseUpTo(k, w.client, i)
    ensures Expected(k, w, i) == i
  {
    if i > 0 {
      assert NumberedAt(k, w.client, i - 1);
    }
  }

  lemma DenseRewriteStep(cfg: Settings, k: string, w: Work, i: nat, w2: Work)
    requires Rewrote(cfg, k, w, i, Int(i), w2) && DenseUpTo(k, w.client, i)
    ensures DenseUpTo(k, w2.client, i + 1)
  {
    assert |w2.client| == |w.client|;
    forall j: nat | j < i + 1 && j < |w2.client| ensures NumberedAt(k, w2.client, j) {
      if j < i {
        assert NumberedAt(k, w.client, j);
        assert w2.client[j] == w.client[j];
      }
    }
  }

  /**
   * Dense numbering: once the positions before `i` hold 0, 1, ..., every
   * position `j` ends up holding `j`.
   */
  lemma {:induction false} RenumberDense(cfg: Settings, k: string, w: Work, i: nat, r: Work)
    requires Coherent(cfg, w) && k != cfg.uniqueKey && i <= |w.client|
    requires DenseUpTo(k, w.client, i) && Renumber(cfg, k, w, i) == Ok(r)
    ensures DenseUpTo(k, r.client, |r.client|)
    decreases |w.client| - i
  {
    if i == |w.client| {
      assert r == w;
    } else if Get(w.client[i].rec, k) == Some(Int(Expected(k, w, i))) {
      DenseExpected(k, w, i);
      DenseExtend(k, w.client, i);
      SkipCase(cfg, k, w, i);
      RenumberDense(cfg, k, w, i + 1, r);
    } else {
      DenseExpected(k, w, i);
      var w2 := RewriteCase(cfg, k, w, i);
      DenseRewriteStep(cfg, k, w, i, w2);
      RenumberDense(cfg, k, w2, i + 1, r);
    }
  }

  /** No server record is paired with two client entries. */
  ghost predicate PairsUnique(cfg: Settings, w: Work) {
    forall i: nat, j: nat, q: nat | PairedTo(cfg, w, i, q) && PairedTo(cfg, w, j, q) :: i == j
  }

  lemma CoherentPairsUnique(cfg: Settings, w: Work)
    requires Coherent(cfg, w)
    ensures PairsUnique(cfg, w)
  {
    forall i: nat, j: nat, q: nat | PairedTo(cfg, w, i, q) && PairedTo(cfg, w, j, q) ensures i == j {
      PairedUnique(cfg, w, i, j, q);
    }
  }

  /** A sort value after the loop: the entry's new one if the loop rewrote it, else the record's own. */
  function Mirrored(now: Option<Value>, before: Option<Value>, mine: Option<Value>): Option<Value> {
    if now != before then now else mine
  }

  /**
   * The mirror, from position `i` on: every server record paired with an
   * entry holds afterwards the entry's new sort value if the loop rewrote
   * it, and its own old value otherwise.
   */
  ghost predicate MirrorFrom(cfg: Settings, k: string, w: Work, i: nat, r: Work) {
    forall j: nat, q: nat {:trigger PairedTo(cfg, w, j, q)} | i <= j && PairedTo(cfg, w, j, q) ::
      q < |r.slots| && j < |r.client| && r.slots[q].Some?
      && Get(r.slots[q].value, k)
           == Mirrored(Get(r.client[j].rec, k), Get(w.client[j].rec, k), Get(w.slots[q].value, k))
  }

  /** The loop's frame and mirror from position `i` on. */
  ghost predicate Tracked(cfg: Settings, k: string, w: Work, i: nat, r: Work) {
    FrameFrom(cfg, w, i, r) && MirrorFrom(cfg, k, w, i, r)
  }

  lemma {:induction false} RenumberTracks(cfg: Settings, k: string, w: Work, i: nat, r: Work)
    requires Coherent(cfg, w) && k != cfg.uniqueKey && i <= |w.client|
    requires Renumber(cfg, k, w, i) == Ok(r)
    ensures Tracked(cfg, k, w, i, r)
    decreases |w.client| - i
  {
    if i == |w.client| {
      assert r == w;
    } else if Get(w.client[i].rec, k) == Some(Int(Expected(k, w, i))) {
      SkipCase(cfg, k, w, i);
      RenumberTracks(cfg, k, w, i + 1, r);
      TrackSkipStep(cfg, k, w, i, r);
    } else {
      var w2 := RewriteCase(cfg, k, w, i);
      RenumberTracks(cfg, k, w2, i + 1, r);
      TrackRewriteStep(cfg, k, w, i, Int(Expected(k, w, i)), w2, r);
    }
  }

  lemma TrackSkipStep(cfg: Settings, k: string, w: Work, i: nat, r: Work)
    requires i < |w.client| && Coherent(cfg, w) && Tracked(cfg, k, w, i + 1, r)
    ensures Tracked(cfg, k, w, i, r)
  {
    CoherentPairsUnique(cfg, w);
    FrameSkipStep(cfg, w, i, r);
    MirrorSkipStep(cfg, k, w, i, r);
  }

  lemma TrackRewriteStep(cfg: Settings, k: string, w: Work, i: nat, v: Value, w2: Work, r: Work)
    requires Coherent(cfg, w) && Rewrote(cfg, k, w, i, v, w2) && Get(w.client[i].rec, k) != Some(v)
    requires Tracked(cfg, k, w2, i + 1, r)
    ensures Tracked(cfg, k, w, i, r)
  {
    CoherentPairsUnique(cfg, w);
    FrameRewriteStep(cfg, k, w, i, v, w2, r);
    MirrorRewriteStep(cfg, k, w, i, v, w2, r);
  }

  /** A position the loop skips keeps its paired record as it was. */
  lemma MirrorSkipStep(cfg: Settings, k: string, w: Work, i: nat, r: Work)
    requires i < |w.client| && PairsUnique(cfg, w)
    requires MirrorFrom(cfg, k, w, i + 1, r) && FrameFrom(cfg, w, i + 1, r)
    ensures MirrorFrom(cfg, k, w, i, r)
  {
    forall q: nat | PairedTo(cfg, w, i, q) ensures r.slots[q] == w.slots[q] {
      assert Untouched(cfg, w, i + 1, q);
    }
  }

  /** A position the loop rewrites passes its new value to its paired record. */
  lemma MirrorRewriteStep(cfg: Settings, k: string, w: Work, i: nat, v: Value, w2: Work, r: Work)
    requires Rewrote(cfg, k, w, i, v, w2) && PairsUnique(cfg, w)
    requires Get(w.client[i].rec, k) != Some(v)
    requires MirrorFrom(cfg, k, w2, i + 1, r) && FrameFrom(cfg, w2, i + 1, r)
    ensures MirrorFrom(cfg, k, w, i, r)
  {
    forall q: nat | PairedTo(cfg, w, i, q) ensures r.slots[q] == w2.slots[q] {
      assert Untouched(cfg, w2, i + 1, q);
    }
  }

  // ---------------------------------------------------------------------
  // The whole normaliser
  // ---------------------------------------------------------------------

  /**
   * Sorting is switched on by the sort field being configured and the first
   * client record, before sorting, holding a non-null value for it.
   */
  predicate SortingApplies(cfg: Settings, w: Work) {
    && cfg.sortingKey.Some? && w.client != []
    && Get(w.client[0].rec, cfg.sortingKey.value).Some?
    && !Get(w.client[0].rec, cfg.sortingKey.value).value.Null?
  }

  /**
   * The normaliser's outcome on a coherent state: nothing happens unless
   * sorting applies; with two or more records a value that is not an
   * integer fails; otherwise the result is the sorted client list with every
   * entry's sort value replaced by its position, nothing else changed.
   */
  lemma SortingNormalises(cfg: Settings, w: Work)
    requires WellFormed(cfg) && Coherent(cfg, w)
    ensures !SortingApplies(cfg, w) ==> SortingValueValidationAndCorrection(cfg, w) == Ok(w)
    ensures SortingApplies(cfg, w) && |w.client| > 1 && !AllIntegers(w.client, cfg.sortingKey.value) ==>
              SortingValueValidationAndCorrection(cfg, w) == Err(SchemaMismatch)
    ensures SortingApplies(cfg, w) && (|w.client| == 1 || AllIntegers(w.client, cfg.sortingKey.value)) ==>
              && SortingValueValidationAndCorrection(cfg, w).Ok?
              && var r, k := SortingValueValidationAndCorrection(cfg, w).value, cfg.sortingKey.value;
              var sorted := w.(client := SortEntries(w.client, k));
              && Coherent(cfg, r)
              && OnlyField(cfg, k, sorted, r)
              && MirrorFrom(cfg, k, sorted, 0, r)
              && forall i | 0 <= i < |r.client| :: Get(r.client[i].rec, k) == Some(Int(i))
  {
    if SortingApplies(cfg, w) && (|w.client| == 1 || AllIntegers(w.client, cfg.sortingKey.value)) {
      var k := cfg.sortingKey.value;
      var sorted := w.(client := SortEntries(w.client, k));
      SortKeepsCoherent(cfg, k, w);
      RenumberKeeps(cfg, k, sorted, 0);
      var r := SortingValueValidationAndCorrection(cfg, w).value;
      assert Renumber(cfg, k, sorted, 0) == Ok(r);
      RenumberDense(cfg, k, sorted, 0, r);
      RenumberTracks(cfg, k, sorted, 0, r);
      forall i | 0 <= i < |r.client| ensures Get(r.client[i].rec, k) == Some(Int(i)) {
        assert NumberedAt(k, r.client, i);
      }
    }
  }
}
