/**
 * What `__compare` (app/src/endpoints/sync.py, lines 223-242) guarantees
 * as a whole, for local records with distinct unique keys: a conflict
 * anywhere aborts the merge, the client list never holds a unique key twice,
 * and deleted or dropped local records are absent from it.
 */
module MergeFacts {
  import opened Records
  import opened Config
  import opened SyncSpec
  import opened Coherence
  import opened StepFacts
  import opened LoopFacts
  import opened RenumberFacts

  // ---------------------------------------------------------------------
  // The local loop, split at a record
  // ---------------------------------------------------------------------

  /** The loop over `local` is the loop over its first `j` records followed by the loop over the rest. */
  lemma {:induction false} LocalLoopSplit(b: nat, cfg: Settings, now: string, local: seq<Record>, w: Work, j: nat)
    requires j <= |local| && RecordsWithin(local, b) && WorkWithin(w, b)
    ensures LoopLocalData(b, cfg, now, local[..j], w).Err? ==>
              LoopLocalData(b, cfg, now, local, w) == LoopLocalData(b, cfg, now, local[..j], w)
    ensures LoopLocalData(b, cfg, now, local[..j], w).Ok? ==>
              LoopLocalData(b, cfg, now, local, w)
                == LoopLocalData(b, cfg, now, local[j..], LoopLocalData(b, cfg, now, local[..j], w).value)
    decreases j
  {
    if j == 0 {
      assert local[..0] == [] && local[0..] == local;
    } else {
      assert local[..j][0] == local[0] && local[..j][1..] == local[1..][..j - 1];
      assert local[1..][j - 1..] == local[j..];
      if LocalStep(b, cfg, now, w, local[0]).Ok? {
        LocalLoopSplit(b, cfg, now, local[1..], LocalStep(b, cfg, now, w, local[0]).value, j - 1);
      }
    }
  }

  /** A loop that succeeds passes through record `j`: the states `v` before it and `v'` after it. */
  lemma SplitAt(b: nat, cfg: Settings, now: string, local: seq<Record>, w: Work, j: nat) returns (v: Work, v': Work)
    requires j < |local| && RecordsWithin(local, b) && WorkWithin(w, b)
    requires LoopLocalData(b, cfg, now, local, w).Ok?
    ensures LoopLocalData(b, cfg, now, local[..j], w) == Ok(v) && WorkWithin(v, b)
    ensures LocalStep(b, cfg, now, v, local[j]) == Ok(v') && WorkWithin(v', b)
    ensures RecordsWithin(local[j + 1..], b)
    ensures LoopLocalData(b, cfg, now, local[j + 1..], v') == LoopLocalData(b, cfg, now, local, w)
  {
    LocalLoopSplit(b, cfg, now, local, w, j);
    v := LoopLocalData(b, cfg, now, local[..j], w).value;
    assert local[j..][0] == local[j] && local[j..][1..] == local[j + 1..];
    v' := LocalStep(b, cfg, now, v, local[j]).value;
  }

  /**
   * A new local record whose key matches a live server record, reached
   * after the records before it went through without error, makes the
   * whole merge fail with the duplicate-key conflict.
   */
  lemma ConflictAborts(cfg: Settings, now: string, local: seq<Record>, server: seq<Record>, i: nat, v: Work, u: Value, p: nat)
    requires i < |local|
    requires LoopLocalData(Bound(local, server), cfg, now, local[..i], Initial(server)) == Ok(v)
    requires HasKey(cfg, local[i], u) && FindSlot(cfg, v.slots, u, 0) == Ok(Some(p))
    requires Unflagged(local[i], cfg.deletedKey) && Flag(local[i], cfg.isNewKey)
    requires IsLive(cfg, v.slots[p].value)
    ensures Compare(cfg, now, local, server) == Err(DuplicateKeyConflict(u))
  {
    var b := Bound(local, server);
    assert WorkWithin(Initial(server), b);
    LocalLoopSplit(b, cfg, now, local, Initial(server), i);
    StepConflict(b, cfg, now, v, local[i], u, p);
    assert local[i..][0] == local[i];
  }

  // ---------------------------------------------------------------------
  // Steps for other keys leave a key alone
  // ---------------------------------------------------------------------

  /** The optional record `s` is present and has unique key `u`. */
  predicate HoldsKey(cfg: Settings, s: Option<Record>, u: Value) {
    s.Some? && Get(s.value, cfg.uniqueKey) == Some(u)
  }

  /**
   * From `w` to `r` nothing happened to the key `u`: its registration and
   * the server records carrying it are unchanged, and no entry with that key
   * joined the client list.
   */
  ghost predicate KeyQuiet(cfg: Settings, w: Work, r: Work, u: Value) {
    && (u in r.index <==> u in w.index) && (u in w.index ==> r.index[u] == w.index[u])
    && |r.slots| == |w.slots|
    && (forall q | 0 <= q < |w.slots| && r.slots[q] != w.slots[q] ::
          !HoldsKey(cfg, w.slots[q], u) && !HoldsKey(cfg, r.slots[q], u))
    && |w.client| <= |r.client| && r.client[..|w.client|] == w.client
    && (forall i | |w.client| <= i < |r.client| :: KeyOf(cfg, r.client[i]) != Some(u))
  }

  lemma QuietTrans(cfg: Settings, w: Work, w': Work, r: Work, u: Value)
    requires KeyQuiet(cfg, w, w', u) && KeyQuiet(cfg, w', r, u)
    ensures KeyQuiet(cfg, w, r, u)
  {
    assert r.client[..|w.client|] == r.client[..|w'.client|][..|w.client|];
    forall i | |w.client| <= i < |r.client| ensures KeyOf(cfg, r.client[i]) != Some(u) {
      if i < |w'.client| {
        assert r.client[i] == r.client[..|w'.client|][i];
      }
    }
  }

  lemma ShapeQuiet(cfg: Settings, w: Work, r: Work, v: Value, u: Value)
    requires StepShape(cfg, w, r, v) && v != u
    ensures KeyQuiet(cfg, w, r, u)
  {
  }

  /** The local loop over records whose keys all differ from `u` leaves `u` alone. */
  lemma {:induction false} LoopQuiet(b: nat, cfg: Settings, now: string, local: seq<Record>, w: Work, r: Work, u: Value)
    requires WellFormed(cfg) && RecordsWithin(local, b) && WorkWithin(w, b)
    requires KeysAvoid(cfg, local, u)
    requires LoopLocalData(b, cfg, now, local, w) == Ok(r)
    ensures KeyQuiet(cfg, w, r, u)
    decreases |local|
  {
    if local == [] {
      assert r == w;
    } else {
      var w' := LocalStep(b, cfg, now, w, local[0]).value;
      assert RecordsWithin(local[1..], b);
      assert LoopLocalData(b, cfg, now, local[1..], w') == Ok(r);
      StepShaped(b, cfg, now, w, local[0], w');
      ShapeQuiet(cfg, w, w', Get(local[0], cfg.uniqueKey).value, u);
      LoopQuiet(b, cfg, now, local[1..], w', r, u);
      QuietTrans(cfg, w, w', r, u);
    }
  }

  // ---------------------------------------------------------------------
  // Records left out of the client list
  // ---------------------------------------------------------------------

  /** The key `u` is registered and no client entry carries it. */
  ghost predicate Excluded(cfg: Settings, w: Work, u: Value) {
    u in w.index && forall i | 0 <= i < |w.client| :: KeyOf(cfg, w.client[i]) != Some(u)
  }

  lemma QuietExcluded(cfg: Settings, w: Work, r: Work, u: Value)
    requires Excluded(cfg, w, u) && KeyQuiet(cfg, w, r, u)
    ensures Excluded(cfg, r, u)
  {
    forall i | 0 <= i < |r.client| ensures KeyOf(cfg, r.client[i]) != Some(u) {
      if i < |w.client| {
        assert r.client[i] == r.client[..|w.client|][i];
      }
    }
  }

  /** The scavenger only adds keys nobody registered, so a registered key stays excluded. */
  lemma ScavengeExcluded(cfg: Settings, w: Work, r: Work, u: Value)
    requires Excluded(cfg, w, u) && LoopServerData(cfg, w, 0) == Ok(r)
    ensures Excluded(cfg, r, u)
  {
    ScavengeSound(cfg, w, 0, r);
    forall i | 0 <= i < |r.client| ensures KeyOf(cfg, r.client[i]) != Some(u) {
      if i < |w.client| {
        assert r.client[i] == r.client[..|w.client|][i];
      }
    }
  }

  /** Sorting and renumbering change no unique key of the client list. */
  lemma SortingExcluded(cfg: Settings, w: Work, r: Work, u: Value)
    requires WellFormed(cfg) && Coherent(cfg, w) && Excluded(cfg, w, u)
    requires SortingValueValidationAndCorrection(cfg, w) == Ok(r)
    ensures Excluded(cfg, r, u)
  {
    SortingNormalises(cfg, w);
    if SortingApplies(cfg, w) {
      var k := cfg.sortingKey.value;
      var sorted := w.(client := SortEntries(w.client, k));
      OnlyFieldPairs(cfg, k, sorted, r);
      SortEntriesMembers(w.client, k);
      forall i | 0 <= i < |r.client| ensures KeyOf(cfg, r.client[i]) != Some(u) {
        assert KeyOf(cfg, r.client[i]) == KeyOf(cfg, sorted.client[i]);
      }
    }
  }

  /** No server record before slot `q` carries the key `u`. */
  ghost predicate NoEarlierMatch(cfg: Settings, server: seq<Record>, q: nat, u: Option<Value>) {
    forall q' | 0 <= q' < q && q' < |server| :: Get(server[q'], cfg.uniqueKey) != u
  }

  /**
   * The first server record carrying the key `u`, the one the `next(...)`
   * search finds, is soft-deleted (vacuous when there is none). Later
   * records with the same key may be live.
   */
  ghost predicate FirstMatchDead(cfg: Settings, server: seq<Record>, u: Option<Value>) {
    forall q | 0 <= q < |server| && Get(server[q], cfg.uniqueKey) == u && NoEarlierMatch(cfg, server, q, u) ::
      !IsLive(cfg, server[q])
  }

  /** None of the records `rs` has the unique key `u`. */
  ghost predicate KeysAvoid(cfg: Settings, rs: seq<Record>, u: Value) {
    forall i | 0 <= i < |rs| :: Get(rs[i], cfg.uniqueKey) != Some(u)
  }

  /** With distinct keys, the records before and after `local[j]` avoid its key. */
  lemma OthersDiffer(cfg: Settings, local: seq<Record>, j: nat)
    requires KeysUnique(cfg, local) && j < |local| && Get(local[j], cfg.uniqueKey).Some?
    ensures KeysAvoid(cfg, local[..j], Get(local[j], cfg.uniqueKey).value)
    ensures KeysAvoid(cfg, local[j + 1..], Get(local[j], cfg.uniqueKey).value)
  {
    var before, after := local[..j], local[j + 1..];
    forall i | 0 <= i < |before| ensures Get(before[i], cfg.uniqueKey) != Get(local[j], cfg.uniqueKey) {
      assert before[i] == local[i];
    }
    forall i | 0 <= i < |after| ensures Get(after[i], cfg.uniqueKey) != Get(local[j], cfg.uniqueKey) {
      assert after[i] == local[j + 1 + i];
    }
  }

  /**
   * A local record flagged deleted, or one neither deleted nor new whose
   * first server match is missing or soft-deleted, is absent from the
   * merged client list: no client record carries its unique key.
   */
  lemma MergeLeavesOut(b: nat, cfg: Settings, now: string, local: seq<Record>, server: seq<Record>, j: nat, r: Work)
    requires WellFormed(cfg) && RecordsWithin(local, b) && RecordsWithin(server, b)
    requires KeysUnique(cfg, local) && j < |local|
    requires || Flag(local[j], cfg.deletedKey)
             || (&& Unflagged(local[j], cfg.deletedKey) && Unflagged(local[j], cfg.isNewKey)
                 && FirstMatchDead(cfg, server, Get(local[j], cfg.uniqueKey)))
    requires Merge(b, cfg, now, local, server) == Ok(r)
    ensures Get(local[j], cfg.uniqueKey).Some?
    ensures forall i | 0 <= i < |r.client| :: KeyOf(cfg, r.client[i]) != Get(local[j], cfg.uniqueKey)
  {
    var w0 := Initial(server);
    assert WorkWithin(w0, b);
    var w1 := LoopLocalData(b, cfg, now, local, w0).value;
    var w2 := LoopServerData(cfg, w1, 0).value;
    var v, v' := SplitAt(b, cfg, now, local, w0, j);
    var u := Get(local[j], cfg.uniqueKey).value;
    OthersDiffer(cfg, local, j);
    LoopQuiet(b, cfg, now, local[..j], w0, v, u);
    LeftOutAt(b, cfg, now, server, v, local[j], v');
    LoopsCoherent(b, cfg, now, local, server, w1, w2);
    LoopQuiet(b, cfg, now, local[j + 1..], v', w1, u);
    QuietExcluded(cfg, v', w1, u);
    ScavengeExcluded(cfg, w1, w2, u);
    SortingExcluded(cfg, w2, r, u);
  }

  /** The step for a deleted or unmatched record `l`, reached in state `v`, excludes its key. */
  lemma LeftOutAt(b: nat, cfg: Settings, now: string, server: seq<Record>, v: Work, l: Record, v': Work)
    requires WellFormed(cfg) && RecordWithin(l, b) && WorkWithin(v, b)
    requires || Flag(l, cfg.deletedKey)
             || (Unflagged(l, cfg.deletedKey) && Unflagged(l, cfg.isNewKey) && FirstMatchDead(cfg, server, Get(l, cfg.uniqueKey)))
    requires LocalStep(b, cfg, now, v, l) == Ok(v')
    requires KeyQuiet(cfg, Initial(server), v, Get(l, cfg.uniqueKey).value)
    ensures Excluded(cfg, v', Get(l, cfg.uniqueKey).value)
  {
    var u := Get(l, cfg.uniqueKey).value;
    var pos := FindSlot(cfg, v.slots, u, 0).value;
    if Flag(l, cfg.deletedKey) {
      StepDelete(b, cfg, now, v, l, u, pos);
    } else {
      if pos.Some? {
        var p, w0 := pos.value, Initial(server);
        assert HoldsKey(cfg, v.slots[p], u);
        assert v.slots[p] == w0.slots[p];
        forall q' | 0 <= q' < p ensures Get(server[q'], cfg.uniqueKey) != Some(u) {
          assert w0.slots[q'] == Some(server[q']);
        }
        assert NoEarlierMatch(cfg, server, p, Some(u));
      }
      StepDrop(b, cfg, now, v, l, u, pos);
    }
  }

  /** No server record before slot `q` with the unique key `u` is live. */
  ghost predicate FirstLive(cfg: Settings, server: seq<Record>, q: nat, u: Value) {
    forall q' | 0 <= q' < q && q' < |server| && Get(server[q'], cfg.uniqueKey) == Some(u) :: !IsLive(cfg, server[q'])
  }

  /**
   * The scavenger seen from the merge's inputs: a live server record whose
   * unique key no local record mentions (the first live one, should the
   * key repeat) reaches the client list once the local loop and the
   * scavenger have run, as the very record the server sent, after every
   * entry of the local loop.
   */
  lemma MergeScavenges(b: nat, cfg: Settings, now: string, local: seq<Record>, server: seq<Record>,
                       q: nat, u: Value, w1: Work, w2: Work)
    requires WellFormed(cfg) && RecordsWithin(local, b) && RecordsWithin(server, b)
    requires q < |server| && IsLive(cfg, server[q]) && Get(server[q], cfg.uniqueKey) == Some(u)
    requires KeysAvoid(cfg, local, u) && FirstLive(cfg, server, q, u)
    requires LoopLocalData(b, cfg, now, local, Initial(server)) == Ok(w1)
    requires LoopServerData(cfg, w1, 0) == Ok(w2)
    ensures u in w2.index
    ensures exists i | |w1.client| <= i < |w2.client| :: w2.client[i] == Entry(server[q], Scavenged(q))
  {
    var w0 := Initial(server);
    assert WorkWithin(w0, b);
    LoopQuiet(b, cfg, now, local, w0, w1, u);
    assert HoldsKey(cfg, w0.slots[q], u);
    assert w1.slots[q] == w0.slots[q];
    assert Unclaimed(cfg, w1, q, u);
    forall q' | 0 <= q' < q ensures !Unclaimed(cfg, w1, q', u) {
      if w1.slots[q'] == w0.slots[q'] {
        assert w0.slots[q'] == Some(server[q']);
      }
    }
    assert FirstUnclaimed(cfg, w1, 0, q, u);
    ScavengeComplete(cfg, w1, 0, q, u);
    ScavengeSound(cfg, w1, 0, w2);
    var i :| |w1.client| <= i < |w2.client| && w2.client[i].origin == Scavenged(q);
    assert w2.client[i] == Entry(server[q], Scavenged(q));
  }
}
