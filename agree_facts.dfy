/**
 * The sort field agrees between paired records: whenever a client record
 * holds a value for the configured sort field (other than a nested list),
 * the server record the unique-key index pairs it with holds the same value.
 * Pulling, pushing, reviving and scavenging establish it
 * (app/src/endpoints/sync.py, lines 83-89, 196-200 and 210-220), and the
 * normaliser keeps it while renumbering (lines 112-140), so after a merge
 * every paired server record carries its client record's position.
 */
module AgreeFacts {
  import opened Records
  import opened Config
  import opened SyncSpec
  import opened Coherence
  import opened DifferFacts
  import opened StepFacts
  import opened LoopFacts
  import opened RenumberFacts

  /** A present, non-list client value `mine` is matched by the server's `theirs`. */
  predicate Settled(mine: Option<Value>, theirs: Option<Value>) {
    mine.Some? && !mine.value.List? ==> theirs == mine
  }

  /** Every paired client entry and server record agree on field `k`. */
  ghost predicate Agree(cfg: Settings, k: string, w: Work) {
    forall i: nat, q: nat {:trigger PairedTo(cfg, w, i, q)} | PairedTo(cfg, w, i, q) ::
      Settled(Get(w.client[i].rec, k), Get(w.slots[q].value, k))
  }

  /** Every local record names each of its fields once, as a JSON object does. */
  ghost predicate AllDistinctNames(local: seq<Record>) {
    forall i | 0 <= i < |local| :: DistinctNames(local[i])
  }

  // ---------------------------------------------------------------------
  // One local step
  // ---------------------------------------------------------------------

  /** After a pull, a scalar sort value on the client side is matched on the server side. */
  lemma PullSettles(b: nat, cfg: Settings, now: string, l: Record, s: Record)
    requires WellFormed(cfg) && cfg.sortingKey.Some? && DistinctNames(l)
    requires RecordWithin(l, b) && RecordWithin(s, b)
    requires LoopDataAttrs(b, cfg, now, l.fields, l, Some(s), true).Ok?
    ensures var pair, k := LoopDataAttrs(b, cfg, now, l.fields, l, Some(s), true).value, cfg.sortingKey.value;
            Settled(Get(pair.0, k), Get(pair.1.value, k))
  {
    var k := cfg.sortingKey.value;
    FieldsOfDistinct(l);
    if IsList(Get(l, k)) {
      DifferKeepsList(b, cfg, now, l.fields, l, Some(s), true, k);
    } else if Get(l, k).Some? {
      DifferScalars(b, cfg, now, l.fields, l, s, true);
      GetFinds(l, k);
      var i :| 0 <= i < |l.fields| && l.fields[i] == Field(k, Get(l, k).value);
    } else {
      assert Record(l.fields) == l;
    }
  }

  /** After a push, a scalar sort value on the client side is matched on the server side. */
  lemma PushSettles(b: nat, cfg: Settings, now: string, l: Record, s: Record)
    requires WellFormed(cfg) && cfg.sortingKey.Some? && DistinctNames(l)
    requires RecordWithin(l, b) && RecordWithin(s, b)
    requires EditOnServer(b, cfg, now, l, s).Ok?
    ensures var pair, k := EditOnServer(b, cfg, now, l, s).value, cfg.sortingKey.value;
            Settled(Get(pair.0, k), Get(pair.1.value, k))
  {
    var k := cfg.sortingKey.value;
    var r2 := EditStamps(cfg, now, l, s).value;
    EditStampsWithin(cfg, now, l, s, b);
    assert Get(r2, k) == Get(l, k);
    if IsList(Get(l, k)) {
      EditStampsDistinct(cfg, now, l, s);
      FieldsOfDistinct(r2);
      DifferKeepsList(b, cfg, now, r2.fields, r2, Some(s), false, k);
    } else if Get(l, k).Some? {
      EditOnServerPushes(b, cfg, now, l, s);
    } else {
      assert Record(r2.fields) == r2;
    }
  }

  /** A live match, pushed or pulled, agrees with the client's copy on the sort field. */
  lemma ExistingSettles(b: nat, cfg: Settings, now: string, w: Work, p: nat, l: Record, r: Work)
    requires WellFormed(cfg) && cfg.sortingKey.Some? && DistinctNames(l)
    requires p < |w.slots| && w.slots[p].Some?
    requires RecordWithin(l, b) && WorkWithin(w, b)
    requires SyncExisting(b, cfg, now, w, p, l) == Ok(r)
    ensures Settled(Get(r.client[|w.client|].rec, cfg.sortingKey.value), Get(r.slots[p].value, cfg.sortingKey.value))
  {
    var s := w.slots[p].value;
    var pair := PushOrPull(b, cfg, now, l, s).value;
    assert r.slots[p] == pair.1 && r.client[|w.client|].rec == StripFlags(cfg, pair.0).value;
    if Truthy(Get(l, cfg.updatedKey).value) {
      PushSettles(b, cfg, now, l, s);
    } else {
      PullSettles(b, cfg, now, l, s);
    }
  }

  /** A revived record takes the local sort value, which the client's copy keeps. */
  lemma ResurrectSettles(b: nat, cfg: Settings, now: string, w: Work, p: nat, l: Record, r: Work)
    requires WellFormed(cfg) && cfg.sortingKey.Some?
    requires p < |w.slots| && w.slots[p].Some? && !IsLive(cfg, w.slots[p].value)
    requires RecordWithin(l, b) && WorkWithin(w, b)
    requires Resurrect(b, cfg, now, w, p, l) == Ok(r)
    ensures Get(r.slots[p].value, cfg.sortingKey.value) == Get(l, cfg.sortingKey.value)
    ensures Get(r.client[|w.client|].rec, cfg.sortingKey.value) == Get(l, cfg.sortingKey.value)
  {
    var s1 := Put(w.slots[p].value, cfg.deletedAtKey.value, Null);
    var s2 := SetAudit(s1, cfg.sortingKey, now, Some(l)).value;
    assert r.slots[p] == Some(SetAudit(s2, cfg.updatedAtKey, now, None).value);
    assert r.client[|w.client|].rec == StripFlags(cfg, l).value;
  }

  /** The entry a step appends agrees with the server record its key was paired with. */
  lemma DispatchSettles(b: nat, cfg: Settings, now: string, w: Work, u: Value, pos: Option<nat>, l: Record, r: Work)
    requires WellFormed(cfg) && cfg.sortingKey.Some? && DistinctNames(l)
    requires pos.Some? ==> pos.value < |w.slots| && w.slots[pos.value].Some?
                           && Get(w.slots[pos.value].value, cfg.uniqueKey) == Some(u)
    requires RecordWithin(l, b) && WorkWithin(w, b)
    requires Dispatch(b, cfg, now, w, u, pos, l) == Ok(r)
    ensures pos.Some? && |r.client| > |w.client| ==>
              && pos.value < |r.slots| && r.slots[pos.value].Some?
              && Settled(Get(r.client[|w.client|].rec, cfg.sortingKey.value), Get(r.slots[pos.value].value, cfg.sortingKey.value))
  {
    if Truthy(Get(l, cfg.deletedKey).value) {
      assert r == w.(slots := DeleteOnServer(cfg, now, w.slots, pos));
    } else if Truthy(Get(l, cfg.isNewKey).value) {
      if pos.Some? {
        assert Resurrect(b, cfg, now, w, pos.value, l) == Ok(r);
        ResurrectSettles(b, cfg, now, w, pos.value, l, r);
      }
    } else if pos.None? || !IsLive(cfg, w.slots[pos.value].value) {
      assert r == w;
    } else {
      assert SyncExisting(b, cfg, now, w, pos.value, l) == Ok(r);
      ExistingSettles(b, cfg, now, w, pos.value, l, r);
    }
  }

  /**
   * A shaped step keeps the agreement when the entry it appends agrees with
   * the record its key was registered with.
   */
  lemma ShapeAgrees(cfg: Settings, k: string, w: Work, r: Work, u: Value, pos: Option<nat>)
    requires Coherent(cfg, w) && u !in w.index && StepShape(cfg, w, r, u) && Agree(cfg, k, w)
    requires r.index[u] == (if pos.Some? then PairedWith(pos.value) else Unpaired)
    requires pos.Some? && |r.client| > |w.client| ==>
               && pos.value < |r.slots| && r.slots[pos.value].Some?
               && Settled(Get(r.client[|w.client|].rec, k), Get(r.slots[pos.value].value, k))
    ensures Agree(cfg, k, r)
  {
    forall i: nat, q: nat | PairedTo(cfg, r, i, q)
      ensures Settled(Get(r.client[i].rec, k), Get(r.slots[q].value, k))
    {
      if i < |w.client| {
        assert r.client[i] == r.client[..|w.client|][i];
        assert EntryHolds(cfg, w, w.client[i]);
        var v := KeyOf(cfg, w.client[i]).value;
        assert r.index[v] == w.index[v];
        assert r.slots[q] == w.slots[q];
        assert PairedTo(cfg, w, i, q);
      }
    }
  }

  /** One local step keeps the agreement on the sort field. */
  lemma StepAgrees(b: nat, cfg: Settings, now: string, w: Work, l: Record, r: Work)
    requires WellFormed(cfg) && cfg.sortingKey.Some? && DistinctNames(l)
    requires RecordWithin(l, b) && WorkWithin(w, b)
    requires Coherent(cfg, w) && Agree(cfg, cfg.sortingKey.value, w)
    requires LocalStep(b, cfg, now, w, l) == Ok(r)
    requires Get(l, cfg.uniqueKey).value !in w.index
    ensures Agree(cfg, cfg.sortingKey.value, r)
  {
    var u := Get(l, cfg.uniqueKey).value;
    assert FindSlot(cfg, w.slots, u, 0).Ok?;
    var pos := FindSlot(cfg, w.slots, u, 0).value;
    StepUnfold(b, cfg, now, w, l, u, pos);
    var w1 := Register(w, u, pos);
    DispatchSettles(b, cfg, now, w1, u, pos, l, r);
    StepShaped(b, cfg, now, w, l, r);
    ShapeAgrees(cfg, cfg.sortingKey.value, w, r, u, pos);
  }

  /** `__loop_local_data` keeps the agreement when the local keys are fresh. */
  lemma {:induction false} LocalLoopAgrees(b: nat, cfg: Settings, now: string, local: seq<Record>, w: Work, r: Work)
    requires WellFormed(cfg) && cfg.sortingKey.Some? && AllDistinctNames(local)
    requires RecordsWithin(local, b) && WorkWithin(w, b)
    requires Coherent(cfg, w) && Fresh(cfg, local, w) && Agree(cfg, cfg.sortingKey.value, w)
    requires LoopLocalData(b, cfg, now, local, w) == Ok(r)
    ensures Agree(cfg, cfg.sortingKey.value, r)
    decreases |local|
  {
    if local == [] {
      assert r == w;
    } else {
      var w' := LocalStep(b, cfg, now, w, local[0]).value;
      assert RecordsWithin(local[1..], b);
      assert LoopLocalData(b, cfg, now, local[1..], w') == Ok(r);
      var u := Get(local[0], cfg.uniqueKey).value;
      StepShaped(b, cfg, now, w, local[0], w');
      ShapeCoherent(cfg, w, w', u);
      StepAgrees(b, cfg, now, w, local[0], w');
      FreshStep(cfg, local, w, w');
      LocalLoopAgrees(b, cfg, now, local[1..], w', r);
    }
  }

  // ---------------------------------------------------------------------
  // The scavenger and the normaliser
  // ---------------------------------------------------------------------

  /** A scavenged entry is its server record, so it agrees with it on every field. */
  lemma ScavengeAgrees(cfg: Settings, k: string, w: Work, r: Work)
    requires Coherent(cfg, w) && Agree(cfg, k, w) && LoopServerData(cfg, w, 0) == Ok(r)
    ensures Agree(cfg, k, r)
  {
    ScavengeSound(cfg, w, 0, r);
    forall i: nat, q: nat | PairedTo(cfg, r, i, q)
      ensures Settled(Get(r.client[i].rec, k), Get(r.slots[q].value, k))
    {
      if i < |w.client| {
        assert r.client[i] == r.client[..|w.client|][i];
        assert EntryHolds(cfg, w, w.client[i]);
        assert PairedTo(cfg, w, i, q);
      } else {
        assert r.slots[q] == Some(r.client[i].rec);
      }
    }
  }

  /** Sorting moves entries without changing them, so the pairs still agree. */
  lemma SortAgrees(cfg: Settings, k: string, w: Work)
    requires Agree(cfg, k, w)
    ensures Agree(cfg, k, w.(client := SortEntries(w.client, k)))
  {
    var sorted := w.(client := SortEntries(w.client, k));
    SortEntriesMembers(w.client, k);
    forall i: nat, q: nat | PairedTo(cfg, sorted, i, q)
      ensures Settled(Get(sorted.client[i].rec, k), Get(sorted.slots[q].value, k))
    {
      var a :| 0 <= a < |w.client| && w.client[a] == sorted.client[i];
      assert PairedTo(cfg, w, a, q);
    }
  }

  /**
   * The normaliser keeps the agreement, and when it renumbers, every
   * client entry and the server record paired with it hold the entry's
   * position.
   */
  lemma NormaliserAgrees(cfg: Settings, w: Work, r: Work)
    requires WellFormed(cfg) && cfg.sortingKey.Some? && Coherent(cfg, w) && Agree(cfg, cfg.sortingKey.value, w)
    requires SortingValueValidationAndCorrection(cfg, w) == Ok(r)
    ensures Coherent(cfg, r) && Agree(cfg, cfg.sortingKey.value, r)
    ensures SortingApplies(cfg, w) ==>
              forall i: nat, q: nat | PairedTo(cfg, r, i, q) ::
                Get(r.client[i].rec, cfg.sortingKey.value) == Some(Int(i))
                && Get(r.slots[q].value, cfg.sortingKey.value) == Some(Int(i))
  {
    var k := cfg.sortingKey.value;
    SortingNormalises(cfg, w);
    if SortingApplies(cfg, w) {
      var sorted := w.(client := SortEntries(w.client, k));
      SortAgrees(cfg, k, w);
      OnlyFieldPairs(cfg, k, sorted, r);
      forall i: nat, q: nat | PairedTo(cfg, r, i, q)
        ensures Get(r.client[i].rec, k) == Some(Int(i)) && Get(r.slots[q].value, k) == Some(Int(i))
      {
        assert PairedTo(cfg, sorted, i, q);
      }
    }
  }

  // ---------------------------------------------------------------------
  // The whole merge
  // ---------------------------------------------------------------------

  /**
   * For local records with distinct unique keys and field names, a merge
   * that succeeds leaves every paired client and server record agreeing on
   * the sort field; when the normaliser applied (its first client record
   * before sorting held a non-null sort value), client record `i` and its
   * paired server record both hold `i`.
   */
  lemma MergeAgrees(b: nat, cfg: Settings, now: string, local: seq<Record>, server: seq<Record>, w1: Work, w2: Work, r: Work)
    requires WellFormed(cfg) && cfg.sortingKey.Some?
    requires RecordsWithin(local, b) && RecordsWithin(server, b)
    requires KeysUnique(cfg, local) && AllDistinctNames(local)
    requires LoopLocalData(b, cfg, now, local, Initial(server)) == Ok(w1)
    requires LoopServerData(cfg, w1, 0) == Ok(w2)
    requires SortingValueValidationAndCorrection(cfg, w2) == Ok(r)
    ensures Merge(b, cfg, now, local, server) == Ok(r)
    ensures Coherent(cfg, r) && Agree(cfg, cfg.sortingKey.value, r)
    ensures SortingApplies(cfg, w2) ==>
              forall i: nat, q: nat | PairedTo(cfg, r, i, q) ::
                Get(r.client[i].rec, cfg.sortingKey.value) == Some(Int(i))
                && Get(r.slots[q].value, cfg.sortingKey.value) == Some(Int(i))
  {
    var k := cfg.sortingKey.value;
    assert WorkWithin(Initial(server), b);
    LoopsCoherent(b, cfg, now, local, server, w1, w2);
    LocalLoopAgrees(b, cfg, now, local, Initial(server), w1);
    ScavengeAgrees(cfg, k, w1, w2);
    NormaliserAgrees(cfg, w2, r);
  }
}
