/**
 * One iteration of `__loop_local_data` (app/src/endpoints/sync.py, lines
 * 174-208), branch by branch: what happens to the server list, the new
 * server records, the client list and the index for one local record.
 */
module StepFacts {
  import opened Records
  import opened Config
  import opened SyncSpec
  import opened DifferFacts

  /** The local record's unique key is `u`, a hashable value. */
  predicate HasKey(cfg: Settings, l: Record, u: Value) {
    Get(l, cfg.uniqueKey) == Some(u) && !u.List?
  }

  /** The flag field `k` is present and true. */
  predicate Flag(l: Record, k: string) {
    Get(l, k).Some? && Truthy(Get(l, k).value)
  }

  /** The flag field `k` is present and false. */
  predicate Unflagged(l: Record, k: string) {
    Get(l, k).Some? && !Truthy(Get(l, k).value)
  }

  /** With its key and match known, a step is registration followed by the flag tests. */
  lemma StepUnfold(b: nat, cfg: Settings, now: string, w: Work, l: Record, u: Value, pos: Option<nat>)
    requires RecordWithin(l, b) && WorkWithin(w, b)
    requires HasKey(cfg, l, u) && FindSlot(cfg, w.slots, u, 0) == Ok(pos)
    ensures LocalStep(b, cfg, now, w, l) == Dispatch(b, cfg, now, Register(w, u, pos), u, pos, l)
  {
  }

  /**
   * A new record whose key matches a live server record is a conflict: the
   * step, and with it the whole merge, fails with the 409 error.
   */
  lemma StepConflict(b: nat, cfg: Settings, now: string, w: Work, l: Record, u: Value, p: nat)
    requires RecordWithin(l, b) && WorkWithin(w, b)
    requires HasKey(cfg, l, u) && FindSlot(cfg, w.slots, u, 0) == Ok(Some(p))
    requires Unflagged(l, cfg.deletedKey) && Flag(l, cfg.isNewKey)
    requires IsLive(cfg, w.slots[p].value)
    ensures LocalStep(b, cfg, now, w, l) == Err(DuplicateKeyConflict(u))
  {
    StepUnfold(b, cfg, now, w, l, u, Some(p));
    assert Dispatch(b, cfg, now, Register(w, u, Some(p)), u, Some(p), l)
        == AddOnServer(b, cfg, now, Register(w, u, Some(p)), u, Some(p), l);
  }

  /**
   * A local record flagged deleted is never added to the client list; its
   * server match, if any, is deleted softly or physically. A physical
   * deletion removes exactly that record and keeps the others in order.
   */
  lemma StepDelete(b: nat, cfg: Settings, now: string, w: Work, l: Record, u: Value, pos: Option<nat>)
    requires RecordWithin(l, b) && WorkWithin(w, b)
    requires HasKey(cfg, l, u) && FindSlot(cfg, w.slots, u, 0) == Ok(pos)
    requires Flag(l, cfg.deletedKey)
    ensures LocalStep(b, cfg, now, w, l).Ok?
    ensures var r := LocalStep(b, cfg, now, w, l).value;
            && r.client == w.client && r.created == w.created
            && r.index == Register(w, u, pos).index
            && r.slots == DeleteOnServer(cfg, now, w.slots, pos)
    ensures pos.Some? && cfg.deletedAtKey.None? ==>
              var p, r := pos.value, LocalStep(b, cfg, now, w, l).value;
              && Present(w.slots) == Present(w.slots[..p]) + [w.slots[p].value] + Present(w.slots[p + 1..])
              && Present(r.slots) == Present(w.slots[..p]) + Present(w.slots[p + 1..])
  {
    StepUnfold(b, cfg, now, w, l, u, pos);
    if pos.Some? && cfg.deletedAtKey.None? {
      PhysicalDeleteKeepsOrder(w.slots, pos.value);
    }
  }

  /**
   * A record neither deleted nor new whose server match is absent or
   * soft-deleted is dropped: only the index changes.
   */
  lemma StepDrop(b: nat, cfg: Settings, now: string, w: Work, l: Record, u: Value, pos: Option<nat>)
    requires RecordWithin(l, b) && WorkWithin(w, b)
    requires HasKey(cfg, l, u) && FindSlot(cfg, w.slots, u, 0) == Ok(pos)
    requires Unflagged(l, cfg.deletedKey) && Unflagged(l, cfg.isNewKey)
    requires pos.None? || !IsLive(cfg, w.slots[pos.value].value)
    ensures LocalStep(b, cfg, now, w, l).Ok?
    ensures var r := LocalStep(b, cfg, now, w, l).value;
            r.slots == w.slots && r.client == w.client && r.created == w.created
            && r.index == Register(w, u, pos).index
  {
    StepUnfold(b, cfg, now, w, l, u, pos);
  }

  /**
   * A new record whose server match was soft-deleted revives it: the
   * soft-delete stamp becomes null, the sort position is the local one, the
   * update stamp is the clock, and nothing else in the server list changes.
   * The local record, without its flags, goes to the client.
   */
  lemma StepResurrect(b: nat, cfg: Settings, now: string, w: Work, l: Record, u: Value, p: nat)
    requires WellFormed(cfg) && RecordWithin(l, b) && WorkWithin(w, b)
    requires HasKey(cfg, l, u) && FindSlot(cfg, w.slots, u, 0) == Ok(Some(p))
    requires Unflagged(l, cfg.deletedKey) && Flag(l, cfg.isNewKey)
    requires !IsLive(cfg, w.slots[p].value)
    requires LocalStep(b, cfg, now, w, l).Ok?
    ensures var r, s := LocalStep(b, cfg, now, w, l).value, w.slots[p].value;
            && r.slots[p].Some?
            && Get(r.slots[p].value, cfg.deletedAtKey.value) == Some(Null)
            && (cfg.sortingKey.Some? ==> Get(r.slots[p].value, cfg.sortingKey.value) == Get(l, cfg.sortingKey.value))
            && (cfg.updatedAtKey.Some? ==> Get(r.slots[p].value, cfg.updatedAtKey.value) == Some(Str(now)))
            && (forall k | !IsManaged(cfg, k) :: Get(r.slots[p].value, k) == Get(s, k))
    ensures var r := LocalStep(b, cfg, now, w, l).value;
            && |r.slots| == |w.slots|
            && (forall q | 0 <= q < |w.slots| && q != p :: r.slots[q] == w.slots[q])
            && StripFlags(cfg, l).Ok?
            && r.client == w.client + [Entry(StripFlags(cfg, l).value, Own)]
            && r.created == w.created
  {
    StepUnfold(b, cfg, now, w, l, u, Some(p));
    var w1 := Register(w, u, Some(p));
    assert Dispatch(b, cfg, now, w1, u, Some(p), l) == Resurrect(b, cfg, now, w1, p, l);
    ResurrectFacts(b, cfg, now, w1, p, l);
  }

  lemma ResurrectFacts(b: nat, cfg: Settings, now: string, w: Work, p: nat, l: Record)
    requires WellFormed(cfg) && RecordWithin(l, b) && WorkWithin(w, b)
    requires p < |w.slots| && w.slots[p].Some? && !IsLive(cfg, w.slots[p].value)
    requires Resurrect(b, cfg, now, w, p, l).Ok?
    ensures var r, s := Resurrect(b, cfg, now, w, p, l).value, w.slots[p].value;
            && r.slots[p].Some?
            && Get(r.slots[p].value, cfg.deletedAtKey.value) == Some(Null)
            && (cfg.sortingKey.Some? ==> Get(r.slots[p].value, cfg.sortingKey.value) == Get(l, cfg.sortingKey.value))
            && (cfg.updatedAtKey.Some? ==> Get(r.slots[p].value, cfg.updatedAtKey.value) == Some(Str(now)))
            && (forall k | !IsManaged(cfg, k) :: Get(r.slots[p].value, k) == Get(s, k))
    ensures var r := Resurrect(b, cfg, now, w, p, l).value;
            && |r.slots| == |w.slots|
            && (forall q | 0 <= q < |w.slots| && q != p :: r.slots[q] == w.slots[q])
            && StripFlags(cfg, l).Ok?
            && r.client == w.client + [Entry(StripFlags(cfg, l).value, Own)]
            && r.created == w.created
  {
  }

  /**
   * A new record with no server match is created: stamped with the clock,
   * stripped of its flags, and appended as one object to the new server
   * records and to the client list.
   */
  lemma StepCreate(b: nat, cfg: Settings, now: string, w: Work, l: Record, u: Value)
    requires WellFormed(cfg) && DistinctNames(l) && RecordWithin(l, b) && WorkWithin(w, b)
    requires HasKey(cfg, l, u) && FindSlot(cfg, w.slots, u, 0) == Ok(None)
    requires Unflagged(l, cfg.deletedKey) && Flag(l, cfg.isNewKey)
    requires LocalStep(b, cfg, now, w, l).Ok?
    ensures var r := LocalStep(b, cfg, now, w, l).value;
            && r.slots == w.slots
            && |r.created| == |w.created| + 1 && r.created[..|w.created|] == w.created
            && r.client == w.client + [Entry(r.created[|w.created|], Created(|w.created|))]
    ensures var rec := LocalStep(b, cfg, now, w, l).value.created[|w.created|];
            && Get(rec, cfg.uniqueKey) == Some(u)
            && Get(rec, cfg.isNewKey).None? && Get(rec, cfg.updatedKey).None? && Get(rec, cfg.deletedKey).None?
            && (cfg.createdAtKey.Some? ==> Get(rec, cfg.createdAtKey.value) == Some(Str(now)))
            && (cfg.updatedAtKey.Some? ==> Get(rec, cfg.updatedAtKey.value) == Some(Str(now)))
  {
    var w1 := Register(w, u, None);
    StepUnfold(b, cfg, now, w, l, u, None);
    assert Dispatch(b, cfg, now, w1, u, None, l) == AddOnServer(b, cfg, now, w1, u, None, l);
    assert CreateOnServer(b, cfg, now, w1, l) == LocalStep(b, cfg, now, w, l);
    CreateFacts(b, cfg, now, w1, l, u);
  }

  lemma CreateFacts(b: nat, cfg: Settings, now: string, w: Work, l: Record, u: Value)
    requires WellFormed(cfg) && DistinctNames(l) && RecordWithin(l, b) && WorkWithin(w, b)
    requires Get(l, cfg.uniqueKey) == Some(u)
    requires CreateOnServer(b, cfg, now, w, l).Ok?
    ensures var rec := CreateOnServer(b, cfg, now, w, l).value.created[|w.created|];
            && Get(rec, cfg.uniqueKey) == Some(u)
            && Get(rec, cfg.isNewKey).None? && Get(rec, cfg.updatedKey).None? && Get(rec, cfg.deletedKey).None?
            && (cfg.createdAtKey.Some? ==> Get(rec, cfg.createdAtKey.value) == Some(Str(now)))
            && (cfg.updatedAtKey.Some? ==> Get(rec, cfg.updatedAtKey.value) == Some(Str(now)))
  {
    var r1 := SetAudit(l, cfg.createdAtKey, now, None).value;
    var r2 := SetAudit(r1, cfg.updatedAtKey, now, None).value;
    assert RecordWithin(r2, b) by {
      if cfg.createdAtKey.Some? { PutWithin(l, cfg.createdAtKey.value, Str(now), b); }
      if cfg.updatedAtKey.Some? { PutWithin(r1, cfg.updatedAtKey.value, Str(now), b); }
    }
    assert DistinctNames(r2) by {
      if cfg.createdAtKey.Some? { PutDistinct(l, cfg.createdAtKey.value, Str(now)); }
      if cfg.updatedAtKey.Some? { PutDistinct(r1, cfg.updatedAtKey.value, Str(now)); }
    }
    var pair := LoopDataAttrs(b, cfg, now, r2.fields, r2, None, false).value;
    assert StripFlags(cfg, pair.0).value == CreateOnServer(b, cfg, now, w, l).value.created[|w.created|];
    if cfg.createdAtKey.Some? { ScalarKept(b, cfg, now, r2, cfg.createdAtKey.value); }
    if cfg.updatedAtKey.Some? { ScalarKept(b, cfg, now, r2, cfg.updatedAtKey.value); }
  }

  /** The differ run on a record being created keeps its scalar field `k`. */
  lemma ScalarKept(b: nat, cfg: Settings, now: string, r: Record, k: string)
    requires DistinctNames(r) && RecordWithin(r, b)
    requires LoopDataAttrs(b, cfg, now, r.fields, r, None, false).Ok?
    requires Get(r, k).Some? && !Get(r, k).value.List?
    ensures Get(LoopDataAttrs(b, cfg, now, r.fields, r, None, false).value.0, k) == Get(r, k)
  {
    FieldsOfDistinct(r);
    DifferWithoutServer(b, cfg, now, r.fields, r, false);
    GetFinds(r, k);
    var i :| 0 <= i < |r.fields| && r.fields[i] == Field(k, Get(r, k).value);
  }

  /**
   * A record neither deleted, new nor updated, with a live server match,
   * pulls: every compared field of the client's copy holds the server's
   * value, which the server keeps.
   */
  lemma StepPull(b: nat, cfg: Settings, now: string, w: Work, l: Record, u: Value, p: nat)
    requires WellFormed(cfg) && DistinctNames(l) && RecordWithin(l, b) && WorkWithin(w, b)
    requires HasKey(cfg, l, u) && FindSlot(cfg, w.slots, u, 0) == Ok(Some(p))
    requires Unflagged(l, cfg.deletedKey) && Unflagged(l, cfg.isNewKey) && Unflagged(l, cfg.updatedKey)
    requires IsLive(cfg, w.slots[p].value)
    requires LocalStep(b, cfg, now, w, l).Ok?
    ensures var r := LocalStep(b, cfg, now, w, l).value;
            && r.created == w.created && |r.slots| == |w.slots| && r.slots[p].Some?
            && (forall q | 0 <= q < |w.slots| && q != p :: r.slots[q] == w.slots[q])
            && |r.client| == |w.client| + 1 && r.client[..|w.client|] == w.client
            && r.client[|w.client|].origin == Own
    ensures var r, s := LocalStep(b, cfg, now, w, l).value, w.slots[p].value;
            forall k | Get(l, k).Some? && Compared(cfg, Field(k, Get(l, k).value)) ::
              Get(r.client[|w.client|].rec, k) == Get(s, k) && Get(r.slots[p].value, k) == Get(s, k)
  {
    var w1 := Register(w, u, Some(p));
    StepUnfold(b, cfg, now, w, l, u, Some(p));
    assert SyncExisting(b, cfg, now, w1, p, l) == LocalStep(b, cfg, now, w, l);
    PullFacts(b, cfg, now, w1, p, l);
  }

  lemma PullFacts(b: nat, cfg: Settings, now: string, w: Work, p: nat, l: Record)
    requires WellFormed(cfg) && DistinctNames(l) && RecordWithin(l, b) && WorkWithin(w, b)
    requires p < |w.slots| && w.slots[p].Some? && Unflagged(l, cfg.updatedKey)
    requires SyncExisting(b, cfg, now, w, p, l).Ok?
    ensures var r, s := SyncExisting(b, cfg, now, w, p, l).value, w.slots[p].value;
            forall k | Get(l, k).Some? && Compared(cfg, Field(k, Get(l, k).value)) ::
              Get(r.client[|w.client|].rec, k) == Get(s, k) && Get(r.slots[p].value, k) == Get(s, k)
  {
    var s := w.slots[p].value;
    var pair := LoopDataAttrs(b, cfg, now, l.fields, l, Some(s), true).value;
    var r := SyncExisting(b, cfg, now, w, p, l).value;
    assert r.client[|w.client|].rec == StripFlags(cfg, pair.0).value && r.slots[p] == pair.1;
    FieldsOfDistinct(l);
    DifferScalars(b, cfg, now, l.fields, l, s, true);
    forall k | Get(l, k).Some? && Compared(cfg, Field(k, Get(l, k).value))
      ensures Get(r.client[|w.client|].rec, k) == Get(s, k) && Get(r.slots[p].value, k) == Get(s, k)
    {
      GetFinds(l, k);
      var i :| 0 <= i < |l.fields| && l.fields[i] == Field(k, Get(l, k).value);
    }
  }

  /**
   * A record flagged updated with a live server match pushes: the server
   * takes every compared field of the stamped local record (see
   * `DifferFacts.EditOnServerPushes`), and the client's copy agrees.
   */
  lemma StepPush(b: nat, cfg: Settings, now: string, w: Work, l: Record, u: Value, p: nat)
    requires WellFormed(cfg) && DistinctNames(l) && RecordWithin(l, b) && WorkWithin(w, b)
    requires HasKey(cfg, l, u) && FindSlot(cfg, w.slots, u, 0) == Ok(Some(p))
    requires Unflagged(l, cfg.deletedKey) && Unflagged(l, cfg.isNewKey) && Flag(l, cfg.updatedKey)
    requires IsLive(cfg, w.slots[p].value)
    requires LocalStep(b, cfg, now, w, l).Ok?
    ensures var r := LocalStep(b, cfg, now, w, l).value;
            && r.created == w.created && |r.slots| == |w.slots| && r.slots[p].Some?
            && (forall q | 0 <= q < |w.slots| && q != p :: r.slots[q] == w.slots[q])
            && |r.client| == |w.client| + 1 && r.client[..|w.client|] == w.client
            && r.client[|w.client|].origin == Own
    ensures var r := LocalStep(b, cfg, now, w, l).value;
            && (cfg.updatedAtKey.Some? ==>
                  Get(r.client[|w.client|].rec, cfg.updatedAtKey.value) == Some(Str(now))
                  && Get(r.slots[p].value, cfg.updatedAtKey.value) == Some(Str(now)))
            && (forall k | Get(l, k).Some? && Compared(cfg, Field(k, Get(l, k).value))
                           && !Names(cfg.createdAtKey, k) && !Names(cfg.updatedAtKey, k) ::
                  Get(r.client[|w.client|].rec, k) == Get(l, k) && Get(r.slots[p].value, k) == Get(l, k))
  {
    var w1 := Register(w, u, Some(p));
    StepUnfold(b, cfg, now, w, l, u, Some(p));
    assert SyncExisting(b, cfg, now, w1, p, l) == LocalStep(b, cfg, now, w, l);
    PushFacts(b, cfg, now, w1, p, l);
  }

  lemma PushFacts(b: nat, cfg: Settings, now: string, w: Work, p: nat, l: Record)
    requires WellFormed(cfg) && DistinctNames(l) && RecordWithin(l, b) && WorkWithin(w, b)
    requires p < |w.slots| && w.slots[p].Some? && Flag(l, cfg.updatedKey)
    requires SyncExisting(b, cfg, now, w, p, l).Ok?
    ensures var r := SyncExisting(b, cfg, now, w, p, l).value;
            && (cfg.updatedAtKey.Some? ==>
                  Get(r.client[|w.client|].rec, cfg.updatedAtKey.value) == Some(Str(now))
                  && Get(r.slots[p].value, cfg.updatedAtKey.value) == Some(Str(now)))
            && (forall k | Get(l, k).Some? && Compared(cfg, Field(k, Get(l, k).value))
                           && !Names(cfg.createdAtKey, k) && !Names(cfg.updatedAtKey, k) ::
                  Get(r.client[|w.client|].rec, k) == Get(l, k) && Get(r.slots[p].value, k) == Get(l, k))
  {
    var s := w.slots[p].value;
    var pair := EditOnServer(b, cfg, now, l, s).value;
    var r := SyncExisting(b, cfg, now, w, p, l).value;
    assert r.client[|w.client|].rec == StripFlags(cfg, pair.0).value && r.slots[p] == pair.1;
    EditOnServerPushes(b, cfg, now, l, s);
  }

  /** `Present` distributes over concatenation. */
  lemma {:induction false} PresentAppend(a: seq<Option<Record>>, c: seq<Option<Record>>)
    ensures Present(a + c) == Present(a) + Present(c)
    decreases |a|
  {
    if a == [] {
      assert a + c == c;
    } else {
      var head := if a[0].Some? then [a[0].value] else [];
      calc {
        Present(a + c);
      ==  { assert (a + c)[0] == a[0] && (a + c)[1..] == a[1..] + c; }
        head + Present(a[1..] + c);
      ==  { PresentAppend(a[1..], c); }
        head + (Present(a[1..]) + Present(c));
      ==
        (head + Present(a[1..])) + Present(c);
      }
    }
  }

  /** Emptying slot `p` removes exactly its record from the server list, keeping the order. */
  lemma PhysicalDeleteKeepsOrder(slots: seq<Option<Record>>, p: nat)
    requires p < |slots| && slots[p].Some?
    ensures Present(slots) == Present(slots[..p]) + [slots[p].value] + Present(slots[p + 1..])
    ensures Present(slots[p := None]) == Present(slots[..p]) + Present(slots[p + 1..])
  {
    assert slots == slots[..p] + [slots[p]] + slots[p + 1..];
    assert slots[p := None] == slots[..p] + [None] + slots[p + 1..];
    PresentAppend(slots[..p] + [slots[p]], slots[p + 1..]);
    PresentAppend(slots[..p], [slots[p]]);
    PresentAppend(slots[..p] + [None], slots[p + 1..]);
    PresentAppend(slots[..p], [None]);
    assert Present([slots[p]]) == [slots[p].value];
    assert Present([None]) == [];
  }
}
