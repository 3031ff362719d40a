/**
 * What the local loop hands on to the two outputs of `__compare`
 * (app/src/endpoints/sync.py, lines 183-208 and 238-242): every record it
 * adds to the client list has lost its three flags, and the records it
 * creates on the server follow the order of the local records they came
 * from, so the returned server list ends with them in local order.
 */
module OutputFacts {
  import opened Records
  import opened Config
  import opened SyncSpec
  import opened Coherence
  import opened StepFacts
  import opened LoopFacts
  import opened RenumberFacts

  /** The `is_new`, `updated` and `deleted` fields are gone. */
  predicate Stripped(cfg: Settings, r: Record) {
    Get(r, cfg.isNewKey).None? && Get(r, cfg.updatedKey).None? && Get(r, cfg.deletedKey).None?
  }

  /** The unique keys of `rs`, in order. */
  function KeysOf(cfg: Settings, rs: seq<Record>): (ks: seq<Option<Value>>)
    ensures |ks| == |rs|
  {
    seq(|rs|, i requires 0 <= i < |rs| => Get(rs[i], cfg.uniqueKey))
  }

  /** `a` is `b` with some elements left out, the others in their order. */
  predicate Subseq<T(==)>(a: seq<T>, b: seq<T>)
    decreases |b|
  {
    a == [] || (b != [] && ((a[0] == b[0] && Subseq(a[1..], b[1..])) || Subseq(a, b[1..])))
  }

  // ---------------------------------------------------------------------
  // One local step
  // ---------------------------------------------------------------------

  /**
   * What a step appends: the client entry, if any, is stripped of its
   * flags, and a created server record, if any, is that very entry.
   */
  ghost predicate AppendsStripped(cfg: Settings, w: Work, r: Work) {
    && (|r.client| > |w.client| ==> Stripped(cfg, r.client[|w.client|].rec))
    && (|r.created| > |w.created| ==>
          |r.client| == |w.client| + 1 && r.client[|w.client|] == Entry(r.created[|w.created|], Created(|w.created|)))
  }

  /** A created record is stripped, and it is the entry the client list gains. */
  lemma CreateAppends(b: nat, cfg: Settings, now: string, w: Work, l: Record, r: Work)
    requires RecordWithin(l, b) && WorkWithin(w, b)
    requires CreateOnServer(b, cfg, now, w, l) == Ok(r)
    ensures AppendsStripped(cfg, w, r)
  {
    var r1 := SetAudit(l, cfg.createdAtKey, now, None).value;
    var r2 := SetAudit(r1, cfg.updatedAtKey, now, None).value;
    assert RecordWithin(r2, b) by {
      if cfg.createdAtKey.Some? { PutWithin(l, cfg.createdAtKey.value, Str(now), b); }
      if cfg.updatedAtKey.Some? { PutWithin(r1, cfg.updatedAtKey.value, Str(now), b); }
    }
    var pair := LoopDataAttrs(b, cfg, now, r2.fields, r2, None, false).value;
    assert r.created[|w.created|] == StripFlags(cfg, pair.0).value;
  }

  /** A pushed or pulled record reaches the client stripped. */
  lemma ExistingAppends(b: nat, cfg: Settings, now: string, w: Work, p: nat, l: Record, r: Work)
    requires p < |w.slots| && w.slots[p].Some?
    requires RecordWithin(l, b) && WorkWithin(w, b)
    requires SyncExisting(b, cfg, now, w, p, l) == Ok(r)
    ensures AppendsStripped(cfg, w, r)
  {
    var pair := PushOrPull(b, cfg, now, l, w.slots[p].value).value;
    assert r.client[|w.client|].rec == StripFlags(cfg, pair.0).value;
  }

  lemma DispatchAppends(b: nat, cfg: Settings, now: string, w: Work, u: Value, pos: Option<nat>, l: Record, r: Work)
    requires WellFormed(cfg)
    requires pos.Some? ==> pos.value < |w.slots| && w.slots[pos.value].Some?
                           && Get(w.slots[pos.value].value, cfg.uniqueKey) == Some(u)
    requires RecordWithin(l, b) && WorkWithin(w, b)
    requires Dispatch(b, cfg, now, w, u, pos, l) == Ok(r)
    ensures AppendsStripped(cfg, w, r)
  {
    if Truthy(Get(l, cfg.deletedKey).value) {
      assert r == w.(slots := DeleteOnServer(cfg, now, w.slots, pos));
    } else if Truthy(Get(l, cfg.isNewKey).value) {
      assert AddOnServer(b, cfg, now, w, u, pos, l) == Ok(r);
      if pos.None? {
        assert CreateOnServer(b, cfg, now, w, l) == Ok(r);
        CreateAppends(b, cfg, now, w, l, r);
      } else {
        assert Resurrect(b, cfg, now, w, pos.value, l) == Ok(r);
        ResurrectFacts(b, cfg, now, w, pos.value, l);
      }
    } else if pos.None? || !IsLive(cfg, w.slots[pos.value].value) {
      assert r == w;
    } else {
      assert SyncExisting(b, cfg, now, w, pos.value, l) == Ok(r);
      ExistingAppends(b, cfg, now, w, pos.value, l, r);
    }
  }

  /**
   * One local step appends stripped client records, and creates at most one
   * server record, which carries the local record's unique key.
   */
  lemma StepAppends(b: nat, cfg: Settings, now: string, w: Work, l: Record, r: Work)
    requires WellFormed(cfg) && RecordWithin(l, b) && WorkWithin(w, b)
    requires LocalStep(b, cfg, now, w, l) == Ok(r)
    ensures AppendsStripped(cfg, w, r)
    ensures |w.created| <= |r.created| <= |w.created| + 1 && r.created[..|w.created|] == w.created
    ensures |r.created| > |w.created| ==> Get(r.created[|w.created|], cfg.uniqueKey) == Get(l, cfg.uniqueKey)
  {
    var u := Get(l, cfg.uniqueKey).value;
    assert FindSlot(cfg, w.slots, u, 0).Ok?;
    var pos := FindSlot(cfg, w.slots, u, 0).value;
    StepUnfold(b, cfg, now, w, l, u, pos);
    DispatchAppends(b, cfg, now, Register(w, u, pos), u, pos, l, r);
    StepShaped(b, cfg, now, w, l, r);
  }

  // ---------------------------------------------------------------------
  // The local loop
  // ---------------------------------------------------------------------

  /** From `w` to `r` the two lists only grew, and by stripped records. */
  ghost predicate Appended(cfg: Settings, w: Work, r: Work) {
    && |w.client| <= |r.client| && r.client[..|w.client|] == w.client
    && |w.created| <= |r.created| && r.created[..|w.created|] == w.created
    && (forall i | |w.client| <= i < |r.client| :: Stripped(cfg, r.client[i].rec))
    && (forall j | |w.created| <= j < |r.created| :: Stripped(cfg, r.created[j]))
  }

  /** A stripping step followed by stripping steps only appends stripped records. */
  lemma AppendedChain(cfg: Settings, w: Work, w': Work, r: Work)
    requires AppendsStripped(cfg, w, w')
    requires |w.client| <= |w'.client| <= |w.client| + 1 && w'.client[..|w.client|] == w.client
    requires |w.created| <= |w'.created| <= |w.created| + 1 && w'.created[..|w.created|] == w.created
    requires Appended(cfg, w', r)
    ensures Appended(cfg, w, r)
  {
    assert r.client[..|w.client|] == r.client[..|w'.client|][..|w.client|];
    assert r.created[..|w.created|] == r.created[..|w'.created|][..|w.created|];
    forall i | |w.client| <= i < |r.client| ensures Stripped(cfg, r.client[i].rec) {
      if i < |w'.client| {
        assert r.client[i] == r.client[..|w'.client|][i];
      }
    }
    forall j | |w.created| <= j < |r.created| ensures Stripped(cfg, r.created[j]) {
      if j < |w'.created| {
        assert r.created[j] == r.created[..|w'.created|][j];
      }
    }
  }

  lemma KeysOfAppend(cfg: Settings, a: seq<Record>, c: seq<Record>)
    ensures KeysOf(cfg, a + c) == KeysOf(cfg, a) + KeysOf(cfg, c)
  {
  }

  /** Creating nothing, or a record keyed like `l`, before a subsequence of `rest` keeps the order of `[l] + rest`. */
  lemma SubseqCons(cfg: Settings, l: Record, rest: seq<Record>, c0: seq<Record>, c': seq<Record>)
    requires c0 == [] || (|c0| == 1 && Get(c0[0], cfg.uniqueKey) == Get(l, cfg.uniqueKey))
    requires Subseq(KeysOf(cfg, c'), KeysOf(cfg, rest))
    ensures Subseq(KeysOf(cfg, c0 + c'), KeysOf(cfg, [l] + rest))
  {
    KeysOfAppend(cfg, c0, c');
    var ks, ls := KeysOf(cfg, c0 + c'), KeysOf(cfg, [l] + rest);
    assert ls[1..] == KeysOf(cfg, rest);
    if c0 == [] {
      assert ks == KeysOf(cfg, c');
    } else {
      assert ks[0] == ls[0];
      assert ks[1..] == KeysOf(cfg, c');
    }
  }

  /**
   * `__loop_local_data` appends only stripped records to the client list,
   * and the records it creates are stripped and keyed like a subsequence
   * of the local records.
   */
  lemma {:induction false} LoopAppends(b: nat, cfg: Settings, now: string, local: seq<Record>, w: Work, r: Work)
    requires WellFormed(cfg) && RecordsWithin(local, b) && WorkWithin(w, b)
    requires LoopLocalData(b, cfg, now, local, w) == Ok(r)
    ensures Appended(cfg, w, r)
    ensures Subseq(KeysOf(cfg, r.created[|w.created|..]), KeysOf(cfg, local))
    decreases |local|
  {
    if local == [] {
      assert r == w;
      assert r.created[|w.created|..] == [];
    } else {
      var w' := LocalStep(b, cfg, now, w, local[0]).value;
      assert RecordsWithin(local[1..], b);
      assert LoopLocalData(b, cfg, now, local[1..], w') == Ok(r);
      StepAppends(b, cfg, now, w, local[0], w');
      LoopAppends(b, cfg, now, local[1..], w', r);
      AppendedChain(cfg, w, w', r);
      CreatedChain(cfg, local, w, w', r);
    }
  }

  /** The created records of a step and of the rest of the loop, in local order. */
  lemma CreatedChain(cfg: Settings, local: seq<Record>, w: Work, w': Work, r: Work)
    requires local != []
    requires |w.created| <= |w'.created| <= |w.created| + 1 && w'.created[..|w.created|] == w.created
    requires |w'.created| > |w.created| ==> Get(w'.created[|w.created|], cfg.uniqueKey) == Get(local[0], cfg.uniqueKey)
    requires |w'.created| <= |r.created| && r.created[..|w'.created|] == w'.created
    requires Subseq(KeysOf(cfg, r.created[|w'.created|..]), KeysOf(cfg, local[1..]))
    ensures Subseq(KeysOf(cfg, r.created[|w.created|..]), KeysOf(cfg, local))
  {
    var c0, c' := w'.created[|w.created|..], r.created[|w'.created|..];
    assert r.created[|w.created|..] == c0 + c';
    assert local == [local[0]] + local[1..];
    SubseqCons(cfg, local[0], local[1..], c0, c');
  }

  // ---------------------------------------------------------------------
  // The whole merge
  // ---------------------------------------------------------------------

  /** Every client entry that is not a scavenged server record is stripped. */
  ghost predicate OwnStripped(cfg: Settings, client: seq<Entry>) {
    forall i | 0 <= i < |client| && !client[i].origin.Scavenged? :: Stripped(cfg, client[i].rec)
  }

  /** The two loops of a merge: stripped records, created in local order. */
  lemma LoopsOutputs(b: nat, cfg: Settings, now: string, local: seq<Record>, server: seq<Record>, w1: Work, w2: Work)
    requires WellFormed(cfg) && RecordsWithin(local, b) && RecordsWithin(server, b)
    requires LoopLocalData(b, cfg, now, local, Initial(server)) == Ok(w1)
    requires LoopServerData(cfg, w1, 0) == Ok(w2)
    ensures Subseq(KeysOf(cfg, w2.created), KeysOf(cfg, local))
    ensures forall j | 0 <= j < |w2.created| :: Stripped(cfg, w2.created[j])
    ensures OwnStripped(cfg, w2.client)
  {
    var w0 := Initial(server);
    assert WorkWithin(w0, b);
    LoopAppends(b, cfg, now, local, w0, w1);
    assert w1.created[0..] == w1.created;
    ScavengeSound(cfg, w1, 0, w2);
    forall i | 0 <= i < |w2.client| && !w2.client[i].origin.Scavenged? ensures Stripped(cfg, w2.client[i].rec) {
      assert w2.client[i] == w2.client[..|w1.client|][i];
    }
  }

  /** The normaliser writes only the sort field, which is not a flag or the unique key. */
  lemma NormaliserOutputs(cfg: Settings, w: Work, r: Work)
    requires WellFormed(cfg) && Coherent(cfg, w)
    requires SortingValueValidationAndCorrection(cfg, w) == Ok(r)
    requires forall j | 0 <= j < |w.created| :: Stripped(cfg, w.created[j])
    requires OwnStripped(cfg, w.client)
    ensures KeysOf(cfg, r.created) == KeysOf(cfg, w.created)
    ensures forall j | 0 <= j < |r.created| :: Stripped(cfg, r.created[j])
    ensures OwnStripped(cfg, r.client)
  {
    SortingNormalises(cfg, w);
    if SortingApplies(cfg, w) {
      var k := cfg.sortingKey.value;
      var sorted := w.(client := SortEntries(w.client, k));
      SortEntriesMembers(w.client, k);
      forall i | 0 <= i < |r.client| && !r.client[i].origin.Scavenged? ensures Stripped(cfg, r.client[i].rec) {
        assert sorted.client[i] in w.client;
      }
    }
  }

  /**
   * The outputs of a merge: the records created on the server, which
   * `__compare` appends after the remaining server records, are stripped
   * and come in the order of the local records they were created from;
   * every client record that is not a scavenged server record is stripped.
   */
  lemma MergeOutputs(b: nat, cfg: Settings, now: string, local: seq<Record>, server: seq<Record>, r: Work)
    requires WellFormed(cfg) && RecordsWithin(local, b) && RecordsWithin(server, b)
    requires KeysUnique(cfg, local)
    requires Merge(b, cfg, now, local, server) == Ok(r)
    ensures Subseq(KeysOf(cfg, r.created), KeysOf(cfg, local))
    ensures forall j | 0 <= j < |r.created| :: Stripped(cfg, r.created[j])
    ensures OwnStripped(cfg, r.client)
  {
    var w1 := LoopLocalData(b, cfg, now, local, Initial(server)).value;
    var w2 := LoopServerData(cfg, w1, 0).value;
    LoopsOutputs(b, cfg, now, local, server, w1, w2);
    LoopsCoherent(b, cfg, now, local, server, w1, w2);
    NormaliserOutputs(cfg, w2, r);
  }

  /**
   * `__compare`'s two results: the list pushed to the server is the server
   * list as the merge left it, followed by the records created from local
   * ones, which are stripped of their flags and in local order; every
   * client record that is not a scavenged server record is stripped.
   */
  lemma CompareOutputs(cfg: Settings, now: string, local: seq<Record>, server: seq<Record>,
                       client: seq<Record>, pushed: seq<Record>)
    requires WellFormed(cfg) && KeysUnique(cfg, local)
    requires Compare(cfg, now, local, server) == Ok((client, pushed))
    ensures var w := Merge(Bound(local, server), cfg, now, local, server).value;
            && pushed == Present(w.slots) + w.created
            && Subseq(KeysOf(cfg, w.created), KeysOf(cfg, local))
            && (forall j | 0 <= j < |w.created| :: Stripped(cfg, w.created[j]))
            && |client| == |w.client|
            && (forall i | 0 <= i < |client| && !w.client[i].origin.Scavenged? :: Stripped(cfg, client[i]))
  {
    var b := Bound(local, server);
    var w := Merge(b, cfg, now, local, server).value;
    MergeOutputs(b, cfg, now, local, server, w);
  }
}
