/**
 * The working state as Python holds it: client entries that are the very
 * dictionaries of new server records or of scavenged server records, and an
 * index from unique keys to server records. `Coherent` says the value model
 * tracks that sharing faithfully and that the index and the client keys fit
 * together; under it a write to one client dictionary reaches exactly the
 * records Python would change.
 */
module Coherence {
  import opened Records
  import opened Config
  import opened SyncSpec

  function KeyOf(cfg: Settings, e: Entry): Option<Value> {
    Get(e.rec, cfg.uniqueKey)
  }

  /** The entry is the same dictionary as the record its origin names. */
  ghost predicate AliasHolds(w: Work, e: Entry) {
    match e.origin
    case Own => true
    case Created(j) => j < |w.created| && w.created[j] == e.rec
    case Scavenged(q) => q < |w.slots| && w.slots[q] == Some(e.rec)
  }

  /**
   * The entry's unique key is in the index, and a scavenged entry's key is
   * paired with its own server record.
   */
  ghost predicate EntryHolds(cfg: Settings, w: Work, e: Entry) {
    && AliasHolds(w, e)
    && KeyOf(cfg, e).Some? && KeyOf(cfg, e).value in w.index
    && (e.origin.Scavenged? ==> w.index[KeyOf(cfg, e).value] == PairedWith(e.origin.p))
  }

  ghost predicate KeysDistinct(cfg: Settings, client: seq<Entry>) {
    forall i, j | 0 <= i < j < |client| :: KeyOf(cfg, client[i]) != KeyOf(cfg, client[j])
  }

  /** A key paired with a server record is that record's unique key. */
  ghost predicate PairingsPoint(cfg: Settings, w: Work) {
    forall u | u in w.index && w.index[u].PairedWith? ::
      && w.index[u].p < |w.slots|
      && (w.slots[w.index[u].p].Some? ==> Get(w.slots[w.index[u].p].value, cfg.uniqueKey) == Some(u))
  }

  ghost predicate Coherent(cfg: Settings, w: Work) {
    && (forall i {:trigger EntryHolds(cfg, w, w.client[i])} | 0 <= i < |w.client| :: EntryHolds(cfg, w, w.client[i]))
    && KeysDistinct(cfg, w.client)
    && PairingsPoint(cfg, w)
  }

  /** `server_data_by_unique` maps client entry `i`'s key to the server record in slot `q`. */
  ghost predicate PairedTo(cfg: Settings, w: Work, i: nat, q: nat) {
    && i < |w.client| && KeyOf(cfg, w.client[i]).Some? && KeyOf(cfg, w.client[i]).value in w.index
    && w.index[KeyOf(cfg, w.client[i]).value] == PairedWith(q)
    && q < |w.slots| && w.slots[q].Some?
  }

  lemma KeysDiffer(cfg: Settings, client: seq<Entry>, i: nat, j: nat)
    requires KeysDistinct(cfg, client) && i < |client| && j < |client| && i != j
    ensures KeyOf(cfg, client[i]) != KeyOf(cfg, client[j])
  {
    if j < i {
      assert KeyOf(cfg, client[j]) != KeyOf(cfg, client[i]);
    }
  }

  /** Two client entries are never the same shared dictionary. */
  lemma OriginUnique(cfg: Settings, w: Work, i: nat, j: nat)
    requires Coherent(cfg, w) && i < |w.client| && j < |w.client| && i != j
    requires w.client[i].origin == w.client[j].origin
    ensures w.client[i].origin == Own
  {
    assert EntryHolds(cfg, w, w.client[i]) && EntryHolds(cfg, w, w.client[j]);
    KeysDiffer(cfg, w.client, i, j);
  }

  /** A server record is paired with at most one client entry. */
  lemma PairedUnique(cfg: Settings, w: Work, i: nat, j: nat, q: nat)
    requires Coherent(cfg, w) && PairedTo(cfg, w, i, q) && PairedTo(cfg, w, j, q)
    ensures i == j
  {
    if i != j {
      KeysDiffer(cfg, w.client, i, j);
    }
  }

  lemma ScavengedPaired(cfg: Settings, w: Work, i: nat)
    requires Coherent(cfg, w) && i < |w.client| && w.client[i].origin.Scavenged?
    ensures PairedTo(cfg, w, i, w.client[i].origin.p)
  {
    assert EntryHolds(cfg, w, w.client[i]);
  }

  /** `PutShared` on an origin only entry `i` has writes entry `i` alone. */
  lemma PutSharedOne(client: seq<Entry>, i: nat, k: string, v: Value)
    requires i < |client|
    requires forall j | 0 <= j < |client| && j != i :: client[j].origin != client[i].origin
    ensures PutShared(client, client[i].origin, k, v) == client[i := Entry(Put(client[i].rec, k, v), client[i].origin)]
  {
  }

  lemma PutSharedNone(client: seq<Entry>, o: Origin, k: string, v: Value)
    requires forall j | 0 <= j < |client| :: client[j].origin != o
    ensures PutShared(client, o, k, v) == client
  {
  }

  /**
   * What one renumbering write does in Python's terms: the dictionary of
   * client entry `i` gets `v` under `k`, and so does every list holding that
   * dictionary (its slot in the new records or in the server list) and the
   * server record its key is paired with.
   */
  ghost function Written(cfg: Settings, k: string, w: Work, i: nat, v: Value): (r: Work)
    requires i < |w.client|
  {
    var e := w.client[i];
    Work(
      seq(|w.slots|, q requires 0 <= q < |w.slots| =>
        if PairedTo(cfg, w, i, q) then Some(Put(w.slots[q].value, k, v)) else w.slots[q]),
      w.client[i := Entry(Put(e.rec, k, v), e.origin)],
      seq(|w.created|, j requires 0 <= j < |w.created| =>
        if e.origin == Created(j) then Put(w.created[j], k, v) else w.created[j]),
      w.index)
  }

  /** No other client entry shares entry `i`'s dictionary. */
  ghost predicate Unshared(w: Work, i: nat)
    requires i < |w.client|
  {
    w.client[i].origin == Own
    || forall j | 0 <= j < |w.client| && j != i :: w.client[j].origin != w.client[i].origin
  }

  lemma CoherentUnshared(cfg: Settings, w: Work, i: nat)
    requires Coherent(cfg, w) && i < |w.client|
    ensures Unshared(w, i) && AliasHolds(w, w.client[i])
  {
    assert EntryHolds(cfg, w, w.client[i]);
    if w.client[i].origin != Own {
      forall j | 0 <= j < |w.client| && j != i ensures w.client[j].origin != w.client[i].origin {
        if w.client[j].origin == w.client[i].origin { OriginUnique(cfg, w, i, j); }
      }
    }
  }

  /** The entry's own write, before the mirror onto its paired record. */
  lemma SetOnEntryEffect(w: Work, i: nat, k: string, v: Value)
    requires i < |w.client| && Unshared(w, i) && AliasHolds(w, w.client[i])
    ensures var w1, e := SetOnEntry(w, i, k, v), w.client[i];
            && w1.index == w.index
            && w1.client == w.client[i := Entry(Put(e.rec, k, v), e.origin)]
            && w1.created == (if e.origin.Created? then w.created[e.origin.j := Put(e.rec, k, v)] else w.created)
            && w1.slots == (if e.origin.Scavenged? then w.slots[e.origin.p := Some(Put(e.rec, k, v))] else w.slots)
  {
    if w.client[i].origin != Own {
      PutSharedOne(w.client, i, k, v);
    }
  }

  lemma WrittenCreated(cfg: Settings, k: string, w: Work, i: nat, v: Value)
    requires i < |w.client| && AliasHolds(w, w.client[i])
    ensures var e := w.client[i];
            Written(cfg, k, w, i, v).created
              == (if e.origin.Created? then w.created[e.origin.j := Put(e.rec, k, v)] else w.created)
  {
  }

  /** Under `Coherent`, the correction `Rewrite` performs exactly `Written`. */
  lemma RewriteEffect(cfg: Settings, k: string, w: Work, i: nat, v: Value)
    requires Coherent(cfg, w) && i < |w.client| && k != cfg.uniqueKey
    ensures Rewrite(cfg, k, w, i, v) == Ok(Written(cfg, k, w, i, v))
  {
    var e := w.client[i];
    var w1 := SetOnEntry(w, i, k, v);
    CoherentUnshared(cfg, w, i);
    SetOnEntryEffect(w, i, k, v);
    WrittenCreated(cfg, k, w, i, v);
    assert EntryHolds(cfg, w, e);
    var u := KeyOf(cfg, e).value;
    assert Get(w1.client[i].rec, cfg.uniqueKey) == Some(u);
    match w.index[u]
    case Unpaired =>
      assert Rewrite(cfg, k, w, i, v) == Ok(w1);
      assert w1.slots == Written(cfg, k, w, i, v).slots;
    case PairedWith(p) =>
      assert Rewrite(cfg, k, w, i, v) == Ok(SetOnSlot(w1, p, k, v));
      MirrorEffect(cfg, k, w, i, v, p);
  }

  /** The server records `Written` changes: at most the one paired with entry `i`. */
  lemma WrittenSlots(cfg: Settings, k: string, w: Work, i: nat, v: Value)
    requires i < |w.client| && KeyOf(cfg, w.client[i]).Some? && KeyOf(cfg, w.client[i]).value in w.index
    ensures var pairing := w.index[KeyOf(cfg, w.client[i]).value];
            Written(cfg, k, w, i, v).slots
              == if pairing.PairedWith? && pairing.p < |w.slots| && w.slots[pairing.p].Some?
                 then w.slots[pairing.p := Some(Put(w.slots[pairing.p].value, k, v))]
                 else w.slots
  {
  }

  /** The mirror onto the paired slot `p` completes the write. */
  lemma MirrorEffect(cfg: Settings, k: string, w: Work, i: nat, v: Value, p: nat)
    requires Coherent(cfg, w) && i < |w.client| && k != cfg.uniqueKey
    requires KeyOf(cfg, w.client[i]).Some? && KeyOf(cfg, w.client[i]).value in w.index
    requires w.index[KeyOf(cfg, w.client[i]).value] == PairedWith(p)
    ensures SetOnSlot(SetOnEntry(w, i, k, v), p, k, v) == Written(cfg, k, w, i, v)
  {
    var e := w.client[i];
    var w1 := SetOnEntry(w, i, k, v);
    CoherentUnshared(cfg, w, i);
    SetOnEntryEffect(w, i, k, v);
    WrittenCreated(cfg, k, w, i, v);
    WrittenSlots(cfg, k, w, i, v);
    assert p < |w.slots|;
    if w.slots[p].None? {
      assert !e.origin.Scavenged? by {
        if e.origin.Scavenged? { ScavengedPaired(cfg, w, i); }
      }
    } else if e.origin.Scavenged? {
      ScavengedPaired(cfg, w, i);
      MirrorOwnSlot(w, i, k, v);
    } else {
      MirrorOtherSlot(cfg, w, i, p, k, v);
    }
  }

  /** A scavenged entry's mirror writes its own record again, which changes nothing. */
  lemma MirrorOwnSlot(w: Work, i: nat, k: string, v: Value)
    requires i < |w.client| && Unshared(w, i) && AliasHolds(w, w.client[i]) && w.client[i].origin.Scavenged?
    ensures var p, w1 := w.client[i].origin.p, SetOnEntry(w, i, k, v);
            SetOnSlot(w1, p, k, v) == w1
  {
    var e := w.client[i];
    var p := e.origin.p;
    var w1 := SetOnEntry(w, i, k, v);
    SetOnEntryEffect(w, i, k, v);
    PutTwice(e.rec, k, v);
    assert w1.slots[p] == Some(Put(e.rec, k, v));
    assert w1.client[i] == Entry(Put(e.rec, k, v), e.origin);
    assert forall j | 0 <= j < |w1.client| && j != i :: w1.client[j].origin != w1.client[i].origin;
    PutSharedOne(w1.client, i, k, v);
    assert w1.slots[p := Some(Put(w1.slots[p].value, k, v))] == w1.slots;
    assert w1.client[i := Entry(Put(w1.client[i].rec, k, v), e.origin)] == w1.client;
  }

  /** An entry that does not share a server record mirrors onto its paired record alone. */
  lemma MirrorOtherSlot(cfg: Settings, w: Work, i: nat, p: nat, k: string, v: Value)
    requires Coherent(cfg, w) && i < |w.client| && !w.client[i].origin.Scavenged?
    requires PairedTo(cfg, w, i, p)
    ensures var w1 := SetOnEntry(w, i, k, v);
            SetOnSlot(w1, p, k, v) == w1.(slots := w.slots[p := Some(Put(w.slots[p].value, k, v))])
  {
    var w1 := SetOnEntry(w, i, k, v);
    CoherentUnshared(cfg, w, i);
    SetOnEntryEffect(w, i, k, v);
    forall j | 0 <= j < |w1.client| ensures w1.client[j].origin != Scavenged(p) {
      if w.client[j].origin == Scavenged(p) {
        ScavengedPaired(cfg, w, j);
        PairedUnique(cfg, w, i, j, p);
      }
    }
    PutSharedNone(w1.client, Scavenged(p), k, v);
  }

  /** `r` differs from `w` at most in the field `k`, with the same sharing and index. */
  ghost predicate OnlyField(cfg: Settings, k: string, w: Work, r: Work) {
    && r.index == w.index
    && |r.client| == |w.client| && |r.slots| == |w.slots| && |r.created| == |w.created|
    && (forall j | 0 <= j < |w.client| ::
          r.client[j].origin == w.client[j].origin
          && forall k' | k' != k :: Get(r.client[j].rec, k') == Get(w.client[j].rec, k'))
    && (forall q | 0 <= q < |w.slots| ::
          r.slots[q].Some? == w.slots[q].Some?
          && (w.slots[q].Some? ==> forall k' | k' != k :: Get(r.slots[q].value, k') == Get(w.slots[q].value, k')))
    && (forall j | 0 <= j < |w.created| ::
          forall k' | k' != k :: Get(r.created[j], k') == Get(w.created[j], k'))
  }

  lemma OnlyFieldRefl(cfg: Settings, k: string, w: Work)
    ensures OnlyField(cfg, k, w, w)
  {
  }

  lemma OnlyFieldTrans(cfg: Settings, k: string, w: Work, w': Work, r: Work)
    requires OnlyField(cfg, k, w, w') && OnlyField(cfg, k, w', r)
    ensures OnlyField(cfg, k, w, r)
  {
  }

  /** A field other than the unique key changes no key, no pairing and no sharing. */
  lemma OnlyFieldPairs(cfg: Settings, k: string, w: Work, r: Work)
    requires OnlyField(cfg, k, w, r) && k != cfg.uniqueKey
    ensures forall j | 0 <= j < |w.client| :: KeyOf(cfg, r.client[j]) == KeyOf(cfg, w.client[j])
    ensures forall j, q :: PairedTo(cfg, r, j, q) == PairedTo(cfg, w, j, q)
  {
  }

  lemma WrittenOnlyField(cfg: Settings, k: string, w: Work, i: nat, v: Value)
    requires i < |w.client|
    ensures OnlyField(cfg, k, w, Written(cfg, k, w, i, v))
  {
  }

  /** The write keeps the state coherent. */
  lemma WrittenCoherent(cfg: Settings, k: string, w: Work, i: nat, v: Value)
    requires Coherent(cfg, w) && i < |w.client| && k != cfg.uniqueKey
    ensures Coherent(cfg, Written(cfg, k, w, i, v))
  {
    var r := Written(cfg, k, w, i, v);
    WrittenOnlyField(cfg, k, w, i, v);
    OnlyFieldPairs(cfg, k, w, r);
    var e := w.client[i];
    assert EntryHolds(cfg, w, e);
    forall j | 0 <= j < |r.client| ensures EntryHolds(cfg, r, r.client[j]) {
      assert EntryHolds(cfg, w, w.client[j]);
      if j == i {
        if e.origin.Scavenged? {
          ScavengedPaired(cfg, w, i);
        }
      } else {
        match w.client[j].origin
        case Own =>
        case Created(c) =>
          if e.origin == Created(c) { OriginUnique(cfg, w, i, j); }
        case Scavenged(q) =>
          ScavengedPaired(cfg, w, j);
          if PairedTo(cfg, w, i, q) { PairedUnique(cfg, w, i, j, q); }
      }
    }
    assert KeysDistinct(cfg, r.client);
  }
}
