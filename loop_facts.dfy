/**
 * The two loops of `__compare` (app/src/endpoints/sync.py, lines 166-220)
 * keep the working state coherent (see `Coherence.Coherent`) as long as the
 * local records carry distinct unique keys: every client entry that is a
 * server dictionary is tracked, no unique key enters the client list twice,
 * and the index pairs every key with a server record carrying that key.
 */
module LoopFacts {
  import opened Records
  import opened Config
  import opened SyncSpec
  import opened Coherence
  import opened StepFacts

  // ---------------------------------------------------------------------
  // The shape of one local step
  // ---------------------------------------------------------------------

  /** Only slots holding key `u` change, and a changed slot that survives keeps that key. */
  ghost predicate SlotsKeepKey(cfg: Settings, before: seq<Option<Record>>, after: seq<Option<Record>>, u: Value) {
    && |after| == |before|
    && forall q | 0 <= q < |before| && after[q] != before[q] ::
         && before[q].Some? && Get(before[q].value, cfg.uniqueKey) == Some(u)
         && (after[q].Some? ==> Get(after[q].value, cfg.uniqueKey) == Some(u))
  }

  /**
   * The entry appended by a step carries key `u` and is either the local
   * record itself or the server record the step created.
   */
  ghost predicate NewEntry(cfg: Settings, created: seq<Record>, r: Work, e: Entry, u: Value) {
    && KeyOf(cfg, e) == Some(u)
    && (e.origin == Own
        || (e.origin == Created(|created|) && |created| < |r.created| && r.created[|created|] == e.rec))
  }

  /** The client list and the created records only grow, the client list by one `NewEntry` at most. */
  ghost predicate GrowsBy(cfg: Settings, client: seq<Entry>, created: seq<Record>, r: Work, u: Value) {
    && |created| <= |r.created| && r.created[..|created|] == created
    && (r.client == client
        || (|r.client| == |client| + 1 && r.client[..|client|] == client
            && NewEntry(cfg, created, r, r.client[|client|], u)))
  }

  /**
   * What a local step with key `u` does as far as keys and sharing go: it
   * changes only server records with that key and keeps their key, appends
   * at most one entry with that key, and registers the key with a server
   * record that carries it, leaving the other keys alone.
   */
  ghost predicate StepShape(cfg: Settings, w: Work, r: Work, u: Value) {
    && SlotsKeepKey(cfg, w.slots, r.slots, u)
    && GrowsBy(cfg, w.client, w.created, r, u)
    && r.index.Keys == w.index.Keys + {u}
    && (forall v | v in w.index && v != u :: r.index[v] == w.index[v])
    && (r.index[u].PairedWith? ==>
          && r.index[u].p < |w.slots| && w.slots[r.index[u].p].Some?
          && Get(w.slots[r.index[u].p].value, cfg.uniqueKey) == Some(u))
  }

  /** A step shaped this way, with a key not yet registered, keeps the state coherent. */
  lemma ShapeCoherent(cfg: Settings, w: Work, r: Work, u: Value)
    requires Coherent(cfg, w) && u !in w.index && StepShape(cfg, w, r, u)
    ensures Coherent(cfg, r)
  {
    forall i | 0 <= i < |r.client| ensures EntryHolds(cfg, r, r.client[i]) {
      if i < |w.client| {
        assert r.client[i] == r.client[..|w.client|][i];
        OldEntryHolds(cfg, w, r, u, i);
      }
    }
    forall i, j | 0 <= i < j < |r.client| ensures KeyOf(cfg, r.client[i]) != KeyOf(cfg, r.client[j]) {
      assert r.client[i] == r.client[..|w.client|][i];
      assert EntryHolds(cfg, w, w.client[i]);
      if j < |w.client| {
        assert r.client[j] == r.client[..|w.client|][j];
      }
    }
    forall v | v in r.index && r.index[v].PairedWith?
      ensures r.index[v].p < |r.slots|
      ensures r.slots[r.index[v].p].Some? ==> Get(r.slots[r.index[v].p].value, cfg.uniqueKey) == Some(v)
    {
      var p := r.index[v].p;
      if v != u {
        assert r.index[v] == w.index[v];
        assert w.slots[p].Some? ==> Get(w.slots[p].value, cfg.uniqueKey) == Some(v);
      }
    }
  }

  /** An entry already in the list before a shaped step still holds after it. */
  lemma OldEntryHolds(cfg: Settings, w: Work, r: Work, u: Value, i: nat)
    requires Coherent(cfg, w) && u !in w.index && StepShape(cfg, w, r, u)
    requires i < |w.client| && i < |r.client| && r.client[i] == w.client[i]
    ensures EntryHolds(cfg, r, r.client[i])
  {
    var e := w.client[i];
    assert EntryHolds(cfg, w, e);
    match e.origin
    case Own =>
    case Created(j) =>
      assert r.created[j] == r.created[..|w.created|][j];
    case Scavenged(q) =>
      assert KeyOf(cfg, e) != Some(u);
  }

  // ---------------------------------------------------------------------
  // Every local step has that shape
  // ---------------------------------------------------------------------

  /** A step that succeeds is shaped by the local record's unique key. */
  lemma StepShaped(b: nat, cfg: Settings, now: string, w: Work, l: Record, r: Work)
    requires WellFormed(cfg) && RecordWithin(l, b) && WorkWithin(w, b)
    requires LocalStep(b, cfg, now, w, l) == Ok(r)
    ensures StepShape(cfg, w, r, Get(l, cfg.uniqueKey).value)
  {
    var u := Get(l, cfg.uniqueKey).value;
    assert FindSlot(cfg, w.slots, u, 0).Ok?;
    var pos := FindSlot(cfg, w.slots, u, 0).value;
    StepUnfold(b, cfg, now, w, l, u, pos);
    var w1 := Register(w, u, pos);
    DispatchShaped(b, cfg, now, w1, u, pos, l, r);
  }

  /** The flag tests change the slots, the client list and the created records as `StepShape` allows. */
  lemma DispatchShaped(b: nat, cfg: Settings, now: string, w: Work, u: Value, pos: Option<nat>, l: Record, r: Work)
    requires WellFormed(cfg) && Get(l, cfg.uniqueKey) == Some(u)
    requires pos.Some? ==> pos.value < |w.slots| && w.slots[pos.value].Some?
                           && Get(w.slots[pos.value].value, cfg.uniqueKey) == Some(u)
    requires RecordWithin(l, b) && WorkWithin(w, b)
    requires Dispatch(b, cfg, now, w, u, pos, l) == Ok(r)
    ensures SlotsKeepKey(cfg, w.slots, r.slots, u) && GrowsBy(cfg, w.client, w.created, r, u)
    ensures r.index == w.index
  {
    if Truthy(Get(l, cfg.deletedKey).value) {
      assert r == w.(slots := DeleteOnServer(cfg, now, w.slots, pos));
      DeleteKeepsKey(cfg, now, w.slots, pos, u);
    } else if Truthy(Get(l, cfg.isNewKey).value) {
      assert AddOnServer(b, cfg, now, w, u, pos, l) == Ok(r);
      if pos.None? {
        CreateShaped(b, cfg, now, w, l, u, r);
      } else {
        ResurrectKeys(b, cfg, now, w, pos.value, l, r);
        SlotAndOwnShaped(cfg, w, pos.value, r, u);
      }
    } else if pos.None? || !IsLive(cfg, w.slots[pos.value].value) {
      assert r == w;
    } else {
      assert SyncExisting(b, cfg, now, w, pos.value, l) == Ok(r);
      ExistingKeys(b, cfg, now, w, pos.value, l, r);
      SlotAndOwnShaped(cfg, w, pos.value, r, u);
    }
  }

  /** `__delete_on_server` never touches the unique key of the record it marks. */
  lemma DeleteKeepsKey(cfg: Settings, now: string, slots: seq<Option<Record>>, pos: Option<nat>, u: Value)
    requires WellFormed(cfg)
    requires pos.Some? ==> pos.value < |slots| && slots[pos.value].Some?
                           && Get(slots[pos.value].value, cfg.uniqueKey) == Some(u)
    ensures SlotsKeepKey(cfg, slots, DeleteOnServer(cfg, now, slots, pos), u)
  {
    assert !Names(cfg.sortingKey, cfg.uniqueKey) && !Names(cfg.deletedAtKey, cfg.uniqueKey);
  }

  /** A created record keeps the local record's unique key. */
  lemma CreateShaped(b: nat, cfg: Settings, now: string, w: Work, l: Record, u: Value, r: Work)
    requires WellFormed(cfg) && Get(l, cfg.uniqueKey) == Some(u)
    requires RecordWithin(l, b) && WorkWithin(w, b)
    requires CreateOnServer(b, cfg, now, w, l) == Ok(r)
    ensures r.slots == w.slots && r.index == w.index && GrowsBy(cfg, w.client, w.created, r, u)
  {
    var r1 := SetAudit(l, cfg.createdAtKey, now, None).value;
    var r2 := SetAudit(r1, cfg.updatedAtKey, now, None).value;
    assert RecordWithin(r2, b) by {
      if cfg.createdAtKey.Some? { PutWithin(l, cfg.createdAtKey.value, Str(now), b); }
      if cfg.updatedAtKey.Some? { PutWithin(r1, cfg.updatedAtKey.value, Str(now), b); }
    }
    assert !Names(cfg.createdAtKey, cfg.uniqueKey) && !Names(cfg.updatedAtKey, cfg.uniqueKey);
    var pair := LoopDataAttrs(b, cfg, now, r2.fields, r2, None, false).value;
    assert IsSkipped(cfg, cfg.uniqueKey);
    assert Get(StripFlags(cfg, pair.0).value, cfg.uniqueKey) == Some(u);
  }

  /**
   * A step that rewrites the server record of slot `p` and appends an
   * entry of its own is shaped when both keep the key `u`.
   */
  lemma SlotAndOwnShaped(cfg: Settings, w: Work, p: nat, r: Work, u: Value)
    requires p < |w.slots| && w.slots[p].Some? && Get(w.slots[p].value, cfg.uniqueKey) == Some(u)
    requires |r.slots| == |w.slots| && |r.client| == |w.client| + 1 && r.slots[p].Some?
    requires r == w.(slots := w.slots[p := r.slots[p]], client := w.client + [Entry(r.client[|w.client|].rec, Own)])
    requires Get(r.slots[p].value, cfg.uniqueKey) == Some(u) && Get(r.client[|w.client|].rec, cfg.uniqueKey) == Some(u)
    ensures SlotsKeepKey(cfg, w.slots, r.slots, u) && GrowsBy(cfg, w.client, w.created, r, u)
    ensures r.index == w.index
  {
    assert r.client[..|w.client|] == w.client;
  }

  /** A revived server record keeps its unique key, and the client takes the local record's. */
  lemma ResurrectKeys(b: nat, cfg: Settings, now: string, w: Work, p: nat, l: Record, r: Work)
    requires WellFormed(cfg)
    requires p < |w.slots| && w.slots[p].Some? && !IsLive(cfg, w.slots[p].value)
    requires RecordWithin(l, b) && WorkWithin(w, b)
    requires Resurrect(b, cfg, now, w, p, l) == Ok(r)
    ensures Get(r.slots[p].value, cfg.uniqueKey) == Get(w.slots[p].value, cfg.uniqueKey)
    ensures Get(r.client[|w.client|].rec, cfg.uniqueKey) == Get(l, cfg.uniqueKey)
  {
    var s1 := Put(w.slots[p].value, cfg.deletedAtKey.value, Null);
    var s2 := SetAudit(s1, cfg.sortingKey, now, Some(l)).value;
    assert r.slots[p] == Some(SetAudit(s2, cfg.updatedAtKey, now, None).value);
    assert r.client[|w.client|].rec == StripFlags(cfg, l).value;
    assert !Names(cfg.sortingKey, cfg.uniqueKey) && !Names(cfg.updatedAtKey, cfg.uniqueKey);
  }

  /** Pushing or pulling keeps the unique key on both sides. */
  lemma ExistingKeys(b: nat, cfg: Settings, now: string, w: Work, p: nat, l: Record, r: Work)
    requires WellFormed(cfg)
    requires p < |w.slots| && w.slots[p].Some?
    requires RecordWithin(l, b) && WorkWithin(w, b)
    requires SyncExisting(b, cfg, now, w, p, l) == Ok(r)
    ensures Get(r.slots[p].value, cfg.uniqueKey) == Get(w.slots[p].value, cfg.uniqueKey)
    ensures Get(r.client[|w.client|].rec, cfg.uniqueKey) == Get(l, cfg.uniqueKey)
  {
    var pair := PushOrPull(b, cfg, now, l, w.slots[p].value).value;
    PushOrPullKeeps(b, cfg, now, l, w.slots[p].value);
    assert r.slots[p] == pair.1 && r.client[|w.client|].rec == StripFlags(cfg, pair.0).value;
  }

  /** The differ never writes the unique key, on either side. */
  lemma PushOrPullKeeps(b: nat, cfg: Settings, now: string, l: Record, s: Record)
    requires WellFormed(cfg) && RecordWithin(l, b) && RecordWithin(s, b)
    requires PushOrPull(b, cfg, now, l, s).Ok?
    ensures var pair := PushOrPull(b, cfg, now, l, s).value;
            && Get(pair.0, cfg.uniqueKey) == Get(l, cfg.uniqueKey)
            && Get(pair.1.value, cfg.uniqueKey) == Get(s, cfg.uniqueKey)
  {
    assert IsSkipped(cfg, cfg.uniqueKey);
    if Truthy(Get(l, cfg.updatedKey).value) {
      var r2 := EditStamps(cfg, now, l, s).value;
      EditStampsWithin(cfg, now, l, s, b);
      assert !Names(cfg.createdAtKey, cfg.uniqueKey) && !Names(cfg.updatedAtKey, cfg.uniqueKey);
      assert Get(r2, cfg.uniqueKey) == Get(l, cfg.uniqueKey);
    }
  }

  // ---------------------------------------------------------------------
  // The local loop
  // ---------------------------------------------------------------------

  /**
   * The unique keys of the local records still to visit are not yet
   * registered and differ from each other.
   */
  ghost predicate Fresh(cfg: Settings, local: seq<Record>, w: Work) {
    && (forall i | 0 <= i < |local| && Get(local[i], cfg.uniqueKey).Some? ::
          Get(local[i], cfg.uniqueKey).value !in w.index)
    && (forall i, j | 0 <= i < j < |local| && Get(local[i], cfg.uniqueKey).Some? ::
          Get(local[i], cfg.uniqueKey) != Get(local[j], cfg.uniqueKey))
  }

  /** Local records whose unique keys differ pairwise. */
  ghost predicate KeysUnique(cfg: Settings, local: seq<Record>) {
    forall i, j | 0 <= i < j < |local| && Get(local[i], cfg.uniqueKey).Some? ::
      Get(local[i], cfg.uniqueKey) != Get(local[j], cfg.uniqueKey)
  }

  lemma FreshStep(cfg: Settings, local: seq<Record>, w: Work, w': Work)
    requires local != [] && Fresh(cfg, local, w) && Get(local[0], cfg.uniqueKey).Some?
    requires w'.index.Keys == w.index.Keys + {Get(local[0], cfg.uniqueKey).value}
    ensures Fresh(cfg, local[1..], w')
  {
    forall i | 0 <= i < |local[1..]| && Get(local[1..][i], cfg.uniqueKey).Some?
      ensures Get(local[1..][i], cfg.uniqueKey).value !in w'.index
    {
      assert local[1..][i] == local[i + 1];
    }
    forall i, j | 0 <= i < j < |local[1..]| && Get(local[1..][i], cfg.uniqueKey).Some?
      ensures Get(local[1..][i], cfg.uniqueKey) != Get(local[1..][j], cfg.uniqueKey)
    {
      assert local[1..][i] == local[i + 1] && local[1..][j] == local[j + 1];
    }
  }

  /** `__loop_local_data` keeps the state coherent when the local keys are fresh. */
  lemma {:induction false} LocalLoopCoherent(b: nat, cfg: Settings, now: string, local: seq<Record>, w: Work, r: Work)
    requires WellFormed(cfg) && RecordsWithin(local, b) && WorkWithin(w, b)
    requires Coherent(cfg, w) && Fresh(cfg, local, w)
    requires LoopLocalData(b, cfg, now, local, w) == Ok(r)
    ensures Coherent(cfg, r)
    decreases |local|
  {
    if local == [] {
      assert r == w;
    } else {
      var w' := LocalStep(b, cfg, now, w, local[0]).value;
      assert RecordsWithin(local[1..], b);
      assert LoopLocalData(b, cfg, now, local[1..], w') == Ok(r);
      var u := Get(local[0], cfg.uniqueKey).value;
      StepShaped(b, cfg, now, w, local[0], w');
      ShapeCoherent(cfg, w, w', u);
      FreshStep(cfg, local, w, w');
      LocalLoopCoherent(b, cfg, now, local[1..], w', r);
    }
  }

  // ---------------------------------------------------------------------
  // The scavenger
  // ---------------------------------------------------------------------

  /** Every key registered on the way from `w` to `r` is paired with a server record carrying it. */
  ghost predicate IndexGrownBy(cfg: Settings, w: Work, r: Work) {
    forall v | v in r.index && v !in w.index ::
      && r.index[v].PairedWith? && r.index[v].p < |w.slots| && w.slots[r.index[v].p].Some?
      && Get(w.slots[r.index[v].p].value, cfg.uniqueKey) == Some(v)
  }

  lemma {:induction false} ScavengeIndex(cfg: Settings, w: Work, p: nat, r: Work)
    requires p <= |w.slots| && LoopServerData(cfg, w, p) == Ok(r)
    ensures IndexGrownBy(cfg, w, r)
    decreases |w.slots| - p
  {
    if p == |w.slots| {
      assert r == w;
    } else if w.slots[p].None? || !IsLive(cfg, w.slots[p].value)
              || Get(w.slots[p].value, cfg.uniqueKey).value in w.index {
      assert LoopServerData(cfg, w, p) == LoopServerData(cfg, w, p + 1);
      ScavengeIndex(cfg, w, p + 1, r);
    } else {
      var v := Get(w.slots[p].value, cfg.uniqueKey).value;
      var w' := w.(client := w.client + [Entry(w.slots[p].value, Scavenged(p))], index := w.index[v := PairedWith(p)]);
      assert LoopServerData(cfg, w, p) == LoopServerData(cfg, w', p + 1);
      ScavengeIndex(cfg, w', p + 1, r);
      assert r.index[v] == PairedWith(p);
    }
  }

  /** `__loop_server_data` keeps the state coherent. */
  lemma ScavengeCoherent(cfg: Settings, w: Work, r: Work)
    requires Coherent(cfg, w) && LoopServerData(cfg, w, 0) == Ok(r)
    ensures Coherent(cfg, r)
  {
    ScavengeSound(cfg, w, 0, r);
    ScavengeIndex(cfg, w, 0, r);
    forall i | 0 <= i < |r.client| ensures EntryHolds(cfg, r, r.client[i]) {
      if i < |w.client| {
        assert r.client[i] == r.client[..|w.client|][i];
        assert EntryHolds(cfg, w, w.client[i]);
      }
    }
    forall i, j | 0 <= i < j < |r.client| ensures KeyOf(cfg, r.client[i]) != KeyOf(cfg, r.client[j]) {
      ScavengedKeysDiffer(cfg, w, r, i, j);
    }
  }

  lemma ScavengedKeysDiffer(cfg: Settings, w: Work, r: Work, i: nat, j: nat)
    requires Coherent(cfg, w) && i < j < |r.client|
    requires |w.client| <= |r.client| && r.client[..|w.client|] == w.client
    requires ScavengedFrom(cfg, w, 0, r) && ScavengedInOrder(w, r)
    ensures KeyOf(cfg, r.client[i]) != KeyOf(cfg, r.client[j])
  {
    if j < |w.client| {
      assert r.client[i] == r.client[..|w.client|][i] && r.client[j] == r.client[..|w.client|][j];
    } else if i < |w.client| {
      assert r.client[i] == r.client[..|w.client|][i];
      assert EntryHolds(cfg, w, w.client[i]);
    }
  }

  // ---------------------------------------------------------------------
  // Both loops
  // ---------------------------------------------------------------------

  /** The state the normaliser receives is coherent when the local keys are unique. */
  lemma LoopsCoherent(b: nat, cfg: Settings, now: string, local: seq<Record>, server: seq<Record>, w1: Work, w2: Work)
    requires WellFormed(cfg) && RecordsWithin(local, b) && RecordsWithin(server, b)
    requires KeysUnique(cfg, local)
    requires LoopLocalData(b, cfg, now, local, Initial(server)) == Ok(w1)
    requires LoopServerData(cfg, w1, 0) == Ok(w2)
    ensures Coherent(cfg, w1) && Coherent(cfg, w2)
  {
    assert WorkWithin(Initial(server), b);
    LocalLoopCoherent(b, cfg, now, local, Initial(server), w1);
    ScavengeCoherent(cfg, w1, w2);
  }
}
