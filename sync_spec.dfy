/**
 * The reconciliation of `Sync.__compare` (app/src/endpoints/sync.py) and the
 * helpers it reaches, as functions on values.
 *
 * One call of `__compare` works on four mutable collections; here they are the
 * fields of a `Work` value that every step returns updated:
 *   - `slots`: the server list, updated in place. A record removed with
 *     `del server_data[i]` leaves `None` in its slot, so positions recorded
 *     earlier stay valid; `Present(slots)` is the list Python then holds.
 *   - `client`: `sync_data_for_local`, the records returned to the client.
 *     Each entry also says which other list holds the same dictionary
 *     object, so that a later write through one name is applied to both.
 *   - `created`: `to_add_to_server_data`, new records for the server.
 *   - `index`: `server_data_by_unique`, unique key to paired server record.
 *
 * Where Python raises `KeyError` or `TypeError` (a missing field, an
 * unhashable key, a list where a number is needed) the result is
 * `Err(SchemaMismatch)`; the 409 conflict is `Err(DuplicateKeyConflict(u))`.
 */
module SyncSpec {
  import opened Records
  import opened Config
  import Sorting

  datatype Error =
    | DuplicateKeyConflict(unique: Value)
    | SchemaMismatch

  datatype Result<T> = Ok(value: T) | Err(error: Error) {
    predicate IsFailure() { Err? }
    function PropagateFailure<U>(): Result<U> requires Err? { Err(error) }
    function Extract(): T requires Ok? { value }
  }

  /** Which other list holds the dictionary behind a client entry. */
  datatype Origin =
    | Own              // a client record that only the client list holds
    | Created(j: nat)  // the same object as created[j]
    | Scavenged(p: nat) // the same object as the server record in slot p

  datatype Entry = Entry(rec: Record, origin: Origin)

  /** A value of `server_data_by_unique`: a server record, or None. */
  datatype Pairing = Unpaired | PairedWith(p: nat)

  datatype Work = Work(
    slots: seq<Option<Record>>,
    client: seq<Entry>,
    created: seq<Record>,
    index: map<Value, Pairing>)

  /** `d[k]`, which raises `KeyError` when `k` is missing. */
  function Lookup(r: Record, k: string): Result<Value> {
    match Get(r, k)
    case Some(v) => Ok(v)
    case None => Err(SchemaMismatch)
  }

  /** The server list as Python holds it: the slots not deleted physically. */
  function Present(slots: seq<Option<Record>>): seq<Record> {
    if slots == [] then []
    else (if slots[0].Some? then [slots[0].value] else []) + Present(slots[1..])
  }

  function ClientRecords(client: seq<Entry>): seq<Record> {
    seq(|client|, i requires 0 <= i < |client| => client[i].rec)
  }

  function Initial(server: seq<Record>): Work {
    Work(seq(|server|, i requires 0 <= i < |server| => Some(server[i])), [], [], map[])
  }

  ghost predicate FieldsWithin(fields: seq<Field>, b: nat) {
    forall i | 0 <= i < |fields| :: ValueWithin(fields[i].value, b)
  }

  ghost predicate SlotsWithin(slots: seq<Option<Record>>, b: nat) {
    forall p | 0 <= p < |slots| && slots[p].Some? :: RecordWithin(slots[p].value, b)
  }

  ghost predicate WorkWithin(w: Work, b: nat) {
    && SlotsWithin(w.slots, b)
    && (forall i | 0 <= i < |w.client| :: RecordWithin(w.client[i].rec, b))
    && RecordsWithin(w.created, b)
  }

  /** A nesting bound for both lists; it only serves as the merge's measure. */
  ghost function Bound(local: seq<Record>, server: seq<Record>): (b: nat)
    ensures RecordsWithin(local, b) && RecordsWithin(server, b)
  {
    var h0 := RecordsHeight(local, |local|);
    var h1 := RecordsHeight(server, |server|);
    var b := if h0 < h1 then h1 else h0;
    forall i | 0 <= i < |local| ensures RecordWithin(local[i], b) {
      RecordWithinMono(local[i], h0, b);
    }
    forall i | 0 <= i < |server| ensures RecordWithin(server[i], b) {
      RecordWithinMono(server[i], h1, b);
    }
    b
  }

  // ---------------------------------------------------------------------
  // Small helpers of the source
  // ---------------------------------------------------------------------

  /**
   * `__set_audit`: with a key configured, stamp it with the clock or, given a
   * source record, copy that record's value (a `KeyError` if it lacks one).
   */
  function SetAudit(r: Record, key: Option<string>, now: string, from: Option<Record>): (res: Result<Record>)
    ensures res.Err? <==> key.Some? && from.Some? && Get(from.value, key.value).None?
    ensures res.Ok? && key.None? ==> res.value == r
    ensures res.Ok? && key.Some? && from.None? ==> Get(res.value, key.value) == Some(Str(now))
    ensures res.Ok? && key.Some? && from.Some? ==> Get(res.value, key.value) == Get(from.value, key.value)
    ensures res.Ok? ==> forall k :: !Names(key, k) ==> Get(res.value, k) == Get(r, k)
  {
    match key
    case None => Ok(r)
    case Some(k) =>
      match from
      case None => Ok(Put(r, k, Str(now)))
      case Some(s) =>
        var v :- Lookup(s, k);
        Ok(Put(r, k, v))
  }

  /**
   * `del l_data[is_new]; del l_data[updated]; del l_data[deleted]`: each
   * deletion raises when its field is already gone.
   */
  function StripFlags(cfg: Settings, r: Record): (res: Result<Record>)
    ensures res.Ok? ==> Get(res.value, cfg.isNewKey).None? && Get(res.value, cfg.updatedKey).None?
                        && Get(res.value, cfg.deletedKey).None?
    ensures res.Ok? ==> forall k :: k != cfg.isNewKey && k != cfg.updatedKey && k != cfg.deletedKey ==>
                          Get(res.value, k) == Get(r, k)
    ensures WellFormed(cfg) ==>
              (res.Ok? <==> Get(r, cfg.isNewKey).Some? && Get(r, cfg.updatedKey).Some? && Get(r, cfg.deletedKey).Some?)
  {
    if Get(r, cfg.isNewKey).None? then Err(SchemaMismatch)
    else
      var r1 := Remove(r, cfg.isNewKey);
      if Get(r1, cfg.updatedKey).None? then Err(SchemaMismatch)
      else
        var r2 := Remove(r1, cfg.updatedKey);
        if Get(r2, cfg.deletedKey).None? then Err(SchemaMismatch)
        else Ok(Remove(r2, cfg.deletedKey))
  }

  /**
   * The `next(...)` search of `__loop_local_data` over the server records
   * still present, from slot `from` on: the first whose unique key equals
   * `u`. Reading a record without a unique key raises.
   */
  function FindSlot(cfg: Settings, slots: seq<Option<Record>>, u: Value, from: nat): (res: Result<Option<nat>>)
    requires from <= |slots|
    ensures res.Ok? && res.value.Some? ==>
              from <= res.value.value < |slots| && slots[res.value.value].Some?
              && Get(slots[res.value.value].value, cfg.uniqueKey) == Some(u)
    ensures res.Ok? ==>
              forall q | from <= q < (if res.value.Some? then res.value.value else |slots|) && slots[q].Some? ::
                Get(slots[q].value, cfg.uniqueKey).Some? && Get(slots[q].value, cfg.uniqueKey) != Some(u)
    ensures res.Err? ==>
              res.error == SchemaMismatch
              && exists q | from <= q < |slots| :: slots[q].Some? && Get(slots[q].value, cfg.uniqueKey).None?
    decreases |slots| - from
  {
    if from == |slots| then Ok(None)
    else if slots[from].None? then FindSlot(cfg, slots, u, from + 1)
    else
      match Get(slots[from].value, cfg.uniqueKey)
      case None => Err(SchemaMismatch)
      case Some(x) => if x == u then Ok(Some(from)) else FindSlot(cfg, slots, u, from + 1)
  }

  /**
   * `__delete_on_server`: with no server match nothing happens; otherwise the
   * sort position is cleared (when configured) and the record is either
   * stamped as soft-deleted or, without a soft-delete field, removed.
   */
  function DeleteOnServer(cfg: Settings, now: string, slots: seq<Option<Record>>, pos: Option<nat>): (r: seq<Option<Record>>)
    requires pos.Some? ==> pos.value < |slots| && slots[pos.value].Some?
    ensures |r| == |slots|
    ensures forall q | 0 <= q < |slots| && (pos.None? || q != pos.value) :: r[q] == slots[q]
    ensures pos.Some? && cfg.deletedAtKey.None? ==> r[pos.value].None?
    ensures pos.Some? && cfg.deletedAtKey.Some? ==>
              var s, s' := slots[pos.value].value, r[pos.value];
              && s'.Some?
              && Get(s'.value, cfg.deletedAtKey.value) == Some(Str(now))
              && (cfg.sortingKey.Some? && cfg.sortingKey != cfg.deletedAtKey ==>
                    Get(s'.value, cfg.sortingKey.value) == Some(Null))
              && (forall k :: !Names(cfg.sortingKey, k) && !Names(cfg.deletedAtKey, k) ==>
                    Get(s'.value, k) == Get(s, k))
  {
    match pos
    case None => slots
    case Some(p) =>
      var s := slots[p].value;
      var s1 := if cfg.sortingKey.Some? then Put(s, cfg.sortingKey.value, Null) else s;
      if cfg.deletedAtKey.Some? then slots[p := Some(Put(s1, cfg.deletedAtKey.value, Str(now)))]
      else slots[p := None]
  }

  /**
   * The server side of a nested list field: `s_data[key]` when there is a
   * server record, else `[]`. An empty string iterates like an empty list;
   * anything else that is not a list raises.
   */
  function NestedServer(s: Option<Record>, key: string): (r: Result<seq<Record>>)
    ensures r.Ok? <==> s.None? || (Get(s.value, key).Some? && (Get(s.value, key).value.List? || Get(s.value, key).value == Str([])))
    ensures r.Ok? && s.Some? && Get(s.value, key).value.List? ==> r.value == Get(s.value, key).value.items
    ensures r.Ok? && (s.None? || !Get(s.value, key).value.List?) ==> r.value == []
  {
    match s
    case None => Ok([])
    case Some(r) =>
      match Get(r, key)
      case Some(List(items)) => Ok(items)
      case Some(Str(t)) => if t == [] then Ok([]) else Err(SchemaMismatch)
      case _ => Err(SchemaMismatch)
  }

  // ---------------------------------------------------------------------
  // The recursive core: __compare, __loop_local_data and the helpers that
  // call the attribute differ, which recurses into nested lists.
  // ---------------------------------------------------------------------

  /** `__compare` up to its final concatenation: the finished working state. */
  function Merge(ghost b: nat, cfg: Settings, now: string, local: seq<Record>, server: seq<Record>): (r: Result<Work>)
    requires RecordsWithin(local, b) && RecordsWithin(server, b)
    ensures r.Ok? ==> WorkWithin(r.value, b)
    decreases b, 8
  {
    var w1 :- LoopLocalData(b, cfg, now, local, Initial(server));
    var w2 :- LoopServerData(cfg, w1, 0);
    ScavengeWithin(cfg, w1, 0, b);
    SortingWithin(cfg, w2, b);
    SortingValueValidationAndCorrection(cfg, w2)
  }

  /** `__loop_local_data`: classify the local records one after the other. */
  function LoopLocalData(ghost b: nat, cfg: Settings, now: string, local: seq<Record>, w: Work): (r: Result<Work>)
    requires RecordsWithin(local, b) && WorkWithin(w, b)
    ensures r.Ok? ==> WorkWithin(r.value, b)
    decreases b, 7, |local|
  {
    if local == [] then Ok(w)
    else
      var w' :- LocalStep(b, cfg, now, w, local[0]);
      LoopLocalData(b, cfg, now, local[1..], w')
  }

  /**
   * How one local step may change the working state: only server records
   * carrying the step's unique key `u` change, and the client list and the
   * new server records each grow by at most one record at their end.
   */
  ghost predicate StepFrame(cfg: Settings, w: Work, r: Work, u: Value) {
    && |r.slots| == |w.slots|
    && (forall q | 0 <= q < |w.slots| && r.slots[q] != w.slots[q] ::
          w.slots[q].Some? && Get(w.slots[q].value, cfg.uniqueKey) == Some(u))
    && |w.client| <= |r.client| <= |w.client| + 1 && r.client[..|w.client|] == w.client
    && |w.created| <= |r.created| <= |w.created| + 1 && r.created[..|w.created|] == w.created
  }

  /**
   * One iteration of `__loop_local_data`'s loop, for the local record `l`:
   * find its server copy, register it in the index, then act on its flags.
   */
  function LocalStep(ghost b: nat, cfg: Settings, now: string, w: Work, l: Record): (r: Result<Work>)
    requires RecordWithin(l, b) && WorkWithin(w, b)
    ensures r.Ok? ==> WorkWithin(r.value, b)
    ensures r.Ok? ==> Get(l, cfg.uniqueKey).Some? && !Get(l, cfg.uniqueKey).value.List?
    ensures r.Ok? ==> StepFrame(cfg, w, r.value, Get(l, cfg.uniqueKey).value)
    ensures r.Ok? ==> r.value.index.Keys == w.index.Keys + {Get(l, cfg.uniqueKey).value}
    ensures r.Ok? ==> forall u | u in w.index && u != Get(l, cfg.uniqueKey).value :: r.value.index[u] == w.index[u]
    decreases b, 6
  {
    var u :- Lookup(l, cfg.uniqueKey);
    var pos :- FindSlot(cfg, w.slots, u, 0);
    if u.List? then Err(SchemaMismatch)
    else
      Dispatch(b, cfg, now, Register(w, u, pos), u, pos, l)
  }

  /** `server_data_by_unique[u] = s_data`: the key now names the match, or nothing. */
  function Register(w: Work, u: Value, pos: Option<nat>): (r: Work)
    ensures r.slots == w.slots && r.client == w.client && r.created == w.created
    ensures r.index.Keys == w.index.Keys + {u}
    ensures r.index[u] == (if pos.Some? then PairedWith(pos.value) else Unpaired)
    ensures forall v | v in w.index && v != u :: r.index[v] == w.index[v]
  {
    w.(index := w.index[u := if pos.Some? then PairedWith(pos.value) else Unpaired])
  }

  /**
   * The flag tests of `__loop_local_data` once the server match `pos` is
   * known: deleted, then new, then (for a live match only) updated or not.
   */
  function Dispatch(ghost b: nat, cfg: Settings, now: string, w: Work, u: Value, pos: Option<nat>, l: Record): (r: Result<Work>)
    requires pos.Some? ==> pos.value < |w.slots| && w.slots[pos.value].Some?
                           && Get(w.slots[pos.value].value, cfg.uniqueKey) == Some(u)
    requires RecordWithin(l, b) && WorkWithin(w, b)
    ensures r.Ok? ==> WorkWithin(r.value, b) && StepFrame(cfg, w, r.value, u) && r.value.index == w.index
    decreases b, 5
  {
    var deleted :- Lookup(l, cfg.deletedKey);
    if Truthy(deleted) then
      DeleteWithin(cfg, now, w.slots, pos, b);
      UpdateFrame(cfg, w, w.(slots := DeleteOnServer(cfg, now, w.slots, pos)), u, pos);
      Ok(w.(slots := DeleteOnServer(cfg, now, w.slots, pos)))
    else
      var isNew :- Lookup(l, cfg.isNewKey);
      if Truthy(isNew) then AddOnServer(b, cfg, now, w, u, pos, l)
      else if pos.None? || !IsLive(cfg, w.slots[pos.value].value) then Ok(w)
      else
        var r :- SyncExisting(b, cfg, now, w, pos.value, l);
        UpdateFrame(cfg, w, r, u, pos);
        Ok(r)
  }

  /** A change confined to slot `pos` and to the ends of the two lists is a step's frame. */
  lemma UpdateFrame(cfg: Settings, w: Work, r: Work, u: Value, pos: Option<nat>)
    requires pos.Some? ==> pos.value < |w.slots| && w.slots[pos.value].Some?
                           && Get(w.slots[pos.value].value, cfg.uniqueKey) == Some(u)
    requires |r.slots| == |w.slots|
    requires forall q | 0 <= q < |w.slots| && (pos.None? || q != pos.value) :: r.slots[q] == w.slots[q]
    requires r.client == w.client || (r.client != [] && r.client == w.client + [r.client[|r.client| - 1]])
    requires r.created == w.created
    ensures StepFrame(cfg, w, r, u)
  {
    assert r.client[..|w.client|] == w.client;
  }

  lemma DeleteWithin(cfg: Settings, now: string, slots: seq<Option<Record>>, pos: Option<nat>, b: nat)
    requires pos.Some? ==> pos.value < |slots| && slots[pos.value].Some?
    requires SlotsWithin(slots, b)
    ensures SlotsWithin(DeleteOnServer(cfg, now, slots, pos), b)
  {
    if pos.Some? {
      var s := slots[pos.value].value;
      var s1 := if cfg.sortingKey.Some? then Put(s, cfg.sortingKey.value, Null) else s;
      if cfg.sortingKey.Some? { PutWithin(s, cfg.sortingKey.value, Null, b); }
      if cfg.deletedAtKey.Some? { PutWithin(s1, cfg.deletedAtKey.value, Str(now), b); }
    }
  }

  /**
   * A local record that is neither deleted nor new and has a live server
   * copy in slot `p`: push its changes when it is flagged updated, pull the
   * server's otherwise; the stripped local record goes to the client.
   */
  function SyncExisting(ghost b: nat, cfg: Settings, now: string, w: Work, p: nat, l: Record): (r: Result<Work>)
    requires p < |w.slots| && w.slots[p].Some?
    requires RecordWithin(l, b) && WorkWithin(w, b)
    ensures r.Ok? ==> WorkWithin(r.value, b)
    ensures r.Ok? ==>
              && |r.value.slots| == |w.slots| && |r.value.client| == |w.client| + 1
              && r.value.slots[p].Some?
              && r.value == w.(slots := w.slots[p := r.value.slots[p]],
                               client := w.client + [Entry(r.value.client[|w.client|].rec, Own)])
    decreases b, 4
  {
    var pair :- PushOrPull(b, cfg, now, l, w.slots[p].value);
    var rec :- StripFlags(cfg, pair.0);
    StripWithin(cfg, pair.0, b);
    Ok(w.(slots := w.slots[p := pair.1], client := w.client + [Entry(rec, Own)]))
  }

  /**
   * The record-level part of a live match: an updated local record is
   * pushed with `__edit_on_server`, any other pulls the server's fields.
   */
  function PushOrPull(ghost b: nat, cfg: Settings, now: string, l: Record, s: Record): (r: Result<(Record, Option<Record>)>)
    requires RecordWithin(l, b) && RecordWithin(s, b)
    ensures r.Ok? ==> RecordWithin(r.value.0, b) && r.value.1.Some? && RecordWithin(r.value.1.value, b)
    decreases b, 3
  {
    var updated :- Lookup(l, cfg.updatedKey);
    if Truthy(updated) then EditOnServer(b, cfg, now, l, s)
    else LoopDataAttrs(b, cfg, now, l.fields, l, Some(s), true)
  }

  /**
   * `__add_on_server` for a local record flagged new, followed by the flag
   * stripping of the loop: without a server match the record is created; a
   * soft-deleted match is brought back; a live match is a conflict.
   */
  function AddOnServer(ghost b: nat, cfg: Settings, now: string, w: Work, u: Value, pos: Option<nat>, l: Record): (r: Result<Work>)
    requires pos.Some? ==> pos.value < |w.slots| && w.slots[pos.value].Some?
                           && Get(w.slots[pos.value].value, cfg.uniqueKey) == Some(u)
    requires RecordWithin(l, b) && WorkWithin(w, b)
    ensures pos.Some? && IsLive(cfg, w.slots[pos.value].value) ==> r == Err(DuplicateKeyConflict(u))
    ensures r.Ok? ==> WorkWithin(r.value, b) && StepFrame(cfg, w, r.value, u) && r.value.index == w.index
    decreases b, 4
  {
    match pos
    case None => CreateOnServer(b, cfg, now, w, l)
    case Some(p) =>
      if IsLive(cfg, w.slots[p].value) then Err(DuplicateKeyConflict(u))
      else Resurrect(b, cfg, now, w, p, l)
  }

  /**
   * A new record with no server copy: stamped, its nested lists merged
   * against nothing, stripped, and added as one object to the new server
   * records and to the client list.
   */
  function CreateOnServer(ghost b: nat, cfg: Settings, now: string, w: Work, l: Record): (r: Result<Work>)
    requires RecordWithin(l, b) && WorkWithin(w, b)
    ensures r.Ok? ==> WorkWithin(r.value, b)
    ensures r.Ok? ==>
              |w.created| < |r.value.created|
              && r.value == w.(created := w.created + [r.value.created[|w.created|]],
                               client := w.client + [Entry(r.value.created[|w.created|], Created(|w.created|))])
    decreases b, 3
  {
    var r1 := SetAudit(l, cfg.createdAtKey, now, None).value;
    var r2 := SetAudit(r1, cfg.updatedAtKey, now, None).value;
    assert RecordWithin(r2, b) by {
      if cfg.createdAtKey.Some? { PutWithin(l, cfg.createdAtKey.value, Str(now), b); }
      if cfg.updatedAtKey.Some? { PutWithin(r1, cfg.updatedAtKey.value, Str(now), b); }
    }
    var pair :- LoopDataAttrs(b, cfg, now, r2.fields, r2, None, false);
    var rec :- StripFlags(cfg, pair.0);
    StripWithin(cfg, pair.0, b);
    Ok(w.(created := w.created + [rec], client := w.client + [Entry(rec, Created(|w.created|))]))
  }

  /**
   * A new record whose server copy in slot `p` was soft-deleted: the copy is
   * revived with the record's sort position and a fresh update stamp, and
   * the stripped record goes to the client.
   */
  function Resurrect(ghost b: nat, cfg: Settings, now: string, w: Work, p: nat, l: Record): (r: Result<Work>)
    requires p < |w.slots| && w.slots[p].Some? && !IsLive(cfg, w.slots[p].value)
    requires RecordWithin(l, b) && WorkWithin(w, b)
    ensures r.Ok? ==> WorkWithin(r.value, b)
    ensures r.Ok? ==>
              && |r.value.slots| == |w.slots| && |r.value.client| == |w.client| + 1
              && r.value.slots[p].Some?
              && r.value == w.(slots := w.slots[p := r.value.slots[p]],
                               client := w.client + [Entry(r.value.client[|w.client|].rec, Own)])
    ensures r.Ok? ==> StripFlags(cfg, l).Ok? && r.value.client == w.client + [Entry(StripFlags(cfg, l).value, Own)]
  {
    var s := w.slots[p].value;
    var s1 := Put(s, cfg.deletedAtKey.value, Null);
    var s2 :- SetAudit(s1, cfg.sortingKey, now, Some(l));
    var s3 := SetAudit(s2, cfg.updatedAtKey, now, None).value;
    var rec :- StripFlags(cfg, l);
    assert RecordWithin(s3, b) by {
      PutWithin(s, cfg.deletedAtKey.value, Null, b);
      if cfg.sortingKey.Some? {
        GetWithin(l, cfg.sortingKey.value, b);
        PutWithin(s1, cfg.sortingKey.value, Get(l, cfg.sortingKey.value).value, b);
      }
      if cfg.updatedAtKey.Some? { PutWithin(s2, cfg.updatedAtKey.value, Str(now), b); }
    }
    StripWithin(cfg, l, b);
    Ok(w.(slots := w.slots[p := Some(s3)], client := w.client + [Entry(rec, Own)]))
  }

  /**
   * `__edit_on_server` for a local record flagged updated: stamp it, then
   * push its differing fields to the server.
   */
  function EditOnServer(ghost b: nat, cfg: Settings, now: string, l: Record, s: Record): (r: Result<(Record, Option<Record>)>)
    requires RecordWithin(l, b) && RecordWithin(s, b)
    ensures r.Ok? ==> RecordWithin(r.value.0, b) && r.value.1.Some? && RecordWithin(r.value.1.value, b)
    decreases b, 2
  {
    var r2 :- EditStamps(cfg, now, l, s);
    EditStampsWithin(cfg, now, l, s, b);
    LoopDataAttrs(b, cfg, now, r2.fields, r2, Some(s), false)
  }

  /**
   * The stamping part of `__edit_on_server`: a fresh update stamp, and the
   * creation stamp taken from the server record.
   */
  function EditStamps(cfg: Settings, now: string, l: Record, s: Record): (r: Result<Record>)
    ensures r.Err? <==> cfg.createdAtKey.Some? && Get(s, cfg.createdAtKey.value).None?
    ensures r.Ok? && cfg.createdAtKey.Some? ==> Get(r.value, cfg.createdAtKey.value) == Get(s, cfg.createdAtKey.value)
    ensures r.Ok? && cfg.updatedAtKey.Some? && cfg.updatedAtKey != cfg.createdAtKey ==>
              Get(r.value, cfg.updatedAtKey.value) == Some(Str(now))
    ensures r.Ok? ==> forall k | !Names(cfg.createdAtKey, k) && !Names(cfg.updatedAtKey, k) :: Get(r.value, k) == Get(l, k)
  {
    var r1 := SetAudit(l, cfg.updatedAtKey, now, None).value;
    SetAudit(r1, cfg.createdAtKey, now, Some(s))
  }

  lemma EditStampsWithin(cfg: Settings, now: string, l: Record, s: Record, b: nat)
    requires RecordWithin(l, b) && RecordWithin(s, b) && EditStamps(cfg, now, l, s).Ok?
    ensures RecordWithin(EditStamps(cfg, now, l, s).value, b)
  {
    var r1 := SetAudit(l, cfg.updatedAtKey, now, None).value;
    if cfg.updatedAtKey.Some? { PutWithin(l, cfg.updatedAtKey.value, Str(now), b); }
    if cfg.createdAtKey.Some? {
      GetWithin(s, cfg.createdAtKey.value, b);
      PutWithin(r1, cfg.createdAtKey.value, Get(s, cfg.createdAtKey.value).value, b);
    }
  }

  /**
   * `__loop_data_attrs` over the fields still to visit, one `AttrStep` per
   * field of the local record as it was when the loop started.
   */
  function LoopDataAttrs(ghost b: nat, cfg: Settings, now: string, fields: seq<Field>,
                         l: Record, s: Option<Record>, editOnLocal: bool): (r: Result<(Record, Option<Record>)>)
    requires FieldsWithin(fields, b) && RecordWithin(l, b) && (s.Some? ==> RecordWithin(s.value, b))
    ensures r.Ok? ==> RecordWithin(r.value.0, b) && (r.value.1.Some? ==> RecordWithin(r.value.1.value, b))
    ensures r.Ok? ==> (r.value.1.Some? <==> s.Some?)
    ensures r.Ok? ==> forall k | IsSkipped(cfg, k) || Get(Record(fields), k).None? ::
                        Get(r.value.0, k) == Get(l, k)
                        && (s.Some? ==> Get(r.value.1.value, k) == Get(s.value, k))
    decreases b, 1, |fields|
  {
    if fields == [] then Ok((l, s))
    else
      assert FieldsWithin(fields[1..], b);
      assert forall k :: Get(Record(fields), k).None? ==> Get(Record(fields[1..]), k).None? && k != fields[0].name;
      var step :- AttrStep(b, cfg, now, fields[0], l, s, editOnLocal);
      LoopDataAttrs(b, cfg, now, fields[1..], step.0, step.1, editOnLocal)
  }

  /**
   * One iteration of `__loop_data_attrs`, for the local field `f`: skipped
   * fields are left alone; a list field is merged recursively, its client
   * result replacing the local value and the server's list being updated in
   * place; a differing scalar field is copied towards the local record when
   * `editOnLocal` holds and towards the server record otherwise.
   */
  function AttrStep(ghost b: nat, cfg: Settings, now: string, f: Field,
                    l: Record, s: Option<Record>, editOnLocal: bool): (r: Result<(Record, Option<Record>)>)
    requires ValueWithin(f.value, b) && RecordWithin(l, b) && (s.Some? ==> RecordWithin(s.value, b))
    ensures r.Ok? ==> RecordWithin(r.value.0, b) && (r.value.1.Some? ==> RecordWithin(r.value.1.value, b))
    ensures r.Ok? ==> (r.value.1.Some? <==> s.Some?)
    ensures r.Ok? ==> forall k | IsSkipped(cfg, k) || k != f.name ::
                        Get(r.value.0, k) == Get(l, k)
                        && (s.Some? ==> Get(r.value.1.value, k) == Get(s.value, k))
    decreases b, 1, 0
  {
    var key, value := f.name, f.value;
    if IsSkipped(cfg, key) then Ok((l, s))
    else if value.List? then NestedStep(b, cfg, now, key, value.items, l, s)
    else if s.None? then Ok((l, s))
    else
      var theirs :- Lookup(s.value, key);
      if value == theirs then Ok((l, s))
      else if editOnLocal then
        assert RecordWithin(Put(l, key, theirs), b) by {
          GetWithin(s.value, key, b);
          PutWithin(l, key, theirs, b);
        }
        Ok((Put(l, key, theirs), s))
      else
        assert RecordWithin(Put(s.value, key, value), b) by {
          PutWithin(s.value, key, value, b);
        }
        Ok((l, Some(Put(s.value, key, value))))
  }

  /**
   * The list branch of `__loop_data_attrs`: the local list under `key` is
   * merged against the server's (nothing when there is no server record);
   * the local record takes the merged client list, and the server's list,
   * which the nested merge updated in place, takes its new contents.
   */
  function NestedStep(ghost b: nat, cfg: Settings, now: string, key: string, items: seq<Record>,
                      l: Record, s: Option<Record>): (r: Result<(Record, Option<Record>)>)
    requires ValueWithin(List(items), b) && RecordWithin(l, b) && (s.Some? ==> RecordWithin(s.value, b))
    ensures r.Ok? ==> RecordWithin(r.value.0, b) && (r.value.1.Some? ==> RecordWithin(r.value.1.value, b))
    ensures r.Ok? ==> (r.value.1.Some? <==> s.Some?)
    ensures r.Ok? ==> forall k | k != key ::
                        Get(r.value.0, k) == Get(l, k)
                        && (s.Some? ==> Get(r.value.1.value, k) == Get(s.value, k))
    decreases b, 0
  {
    var theirs :- NestedServer(s, key);
    assert RecordsWithin(theirs, b - 1) by {
      if s.Some? && Get(s.value, key).value.List? { GetWithin(s.value, key, b); }
    }
    var w :- Merge(b - 1, cfg, now, items, theirs);
    var l' := Put(l, key, List(ClientRecords(w.client)));
    var s' := if s.Some? && Get(s.value, key).value.List? then Some(Put(s.value, key, List(Present(w.slots)))) else s;
    assert RecordWithin(l', b) && (s'.Some? ==> RecordWithin(s'.value, b)) by {
      PutWithin(l, key, List(ClientRecords(w.client)), b);
      if s.Some? && Get(s.value, key).value.List? {
        PresentWithin(w.slots, b - 1);
        PutWithin(s.value, key, List(Present(w.slots)), b);
      }
    }
    Ok((l', s'))
  }

  // ---------------------------------------------------------------------
  // __loop_server_data: the scavenger
  // ---------------------------------------------------------------------

  /** A live server record in slot `q` whose unique key `u` nobody has claimed. */
  ghost predicate Unclaimed(cfg: Settings, w: Work, q: nat, u: Value) {
    q < |w.slots| && w.slots[q].Some? && IsLive(cfg, w.slots[q].value)
    && Get(w.slots[q].value, cfg.uniqueKey) == Some(u) && u !in w.index
  }

  /** Some live record in the slots from `p` on has no usable unique key. */
  ghost predicate BadKeyFrom(cfg: Settings, slots: seq<Option<Record>>, p: nat) {
    exists q | p <= q < |slots| ::
      slots[q].Some? && IsLive(cfg, slots[q].value)
      && (Get(slots[q].value, cfg.uniqueKey).None? || Get(slots[q].value, cfg.uniqueKey).value.List?)
  }

  /**
   * `__loop_server_data` from slot `p` on: every live server record whose
   * unique key is not yet in the index is appended to the client list (as
   * the same object) and registered. It fails exactly when some live record
   * has no unique key or an unhashable one.
   */
  function LoopServerData(cfg: Settings, w: Work, p: nat): (r: Result<Work>)
    requires p <= |w.slots|
    ensures r.Err? <==> BadKeyFrom(cfg, w.slots, p)
    ensures r.Ok? ==> r.value.slots == w.slots && r.value.created == w.created
    ensures r.Ok? ==> |w.client| <= |r.value.client| && r.value.client[..|w.client|] == w.client
    ensures r.Ok? ==> forall u | u in w.index :: u in r.value.index && r.value.index[u] == w.index[u]
    decreases |w.slots| - p
  {
    if p == |w.slots| then Ok(w)
    else if w.slots[p].None? || !IsLive(cfg, w.slots[p].value) then LoopServerData(cfg, w, p + 1)
    else
      var s := w.slots[p].value;
      var u :- Lookup(s, cfg.uniqueKey);
      if u.List? then Err(SchemaMismatch)
      else if u in w.index then LoopServerData(cfg, w, p + 1)
      else
        var w' := w.(client := w.client + [Entry(s, Scavenged(p))], index := w.index[u := PairedWith(p)]);
        LoopServerData(cfg, w', p + 1)
  }

  /**
   * Each client entry appended on the way from `w` to `r` is the very server
   * record of a live slot from `p` on whose key was unclaimed, and that key
   * is now paired with the slot.
   */
  ghost predicate ScavengedFrom(cfg: Settings, w: Work, p: nat, r: Work) {
    forall i | |w.client| <= i < |r.client| ::
      && r.client[i].origin.Scavenged?
      && var q := r.client[i].origin.p;
      && p <= q < |w.slots| && w.slots[q] == Some(r.client[i].rec)
      && Get(w.slots[q].value, cfg.uniqueKey).Some?
      && Unclaimed(cfg, w, q, Get(w.slots[q].value, cfg.uniqueKey).value)
      && Get(w.slots[q].value, cfg.uniqueKey).value in r.index
      && r.index[Get(w.slots[q].value, cfg.uniqueKey).value] == PairedWith(q)
  }

  /** The entries appended on the way from `w` to `r` come in increasing slot order. */
  ghost predicate ScavengedInOrder(w: Work, r: Work) {
    forall i, j | |w.client| <= i < j < |r.client| ::
      r.client[i].origin.Scavenged? && r.client[j].origin.Scavenged?
      && r.client[i].origin.p < r.client[j].origin.p
  }

  /**
   * What the scavenger appends: for each appended client entry, the very
   * server record of a live slot from `p` on whose key was unclaimed, now
   * paired with that slot, in increasing slot order.
   */
  lemma {:induction false} ScavengeSound(cfg: Settings, w: Work, p: nat, r: Work)
    requires p <= |w.slots| && LoopServerData(cfg, w, p) == Ok(r)
    ensures ScavengedFrom(cfg, w, p, r) && ScavengedInOrder(w, r)
    decreases |w.slots| - p
  {
    if p == |w.slots| {
      assert r == w;
    } else if w.slots[p].None? || !IsLive(cfg, w.slots[p].value)
              || Get(w.slots[p].value, cfg.uniqueKey).value in w.index {
      assert LoopServerData(cfg, w, p) == LoopServerData(cfg, w, p + 1);
      ScavengeSound(cfg, w, p + 1, r);
    } else {
      var v := Get(w.slots[p].value, cfg.uniqueKey).value;
      var w' := w.(client := w.client + [Entry(w.slots[p].value, Scavenged(p))], index := w.index[v := PairedWith(p)]);
      assert LoopServerData(cfg, w, p) == LoopServerData(cfg, w', p + 1);
      ScavengeSound(cfg, w', p + 1, r);
      ScavengeSoundStep(cfg, w, p, v, r);
    }
  }

  /** The slot `p` the scavenger appends, in front of what it appends later. */
  lemma ScavengeSoundStep(cfg: Settings, w: Work, p: nat, v: Value, r: Work)
    requires Unclaimed(cfg, w, p, v)
    requires var w' := w.(client := w.client + [Entry(w.slots[p].value, Scavenged(p))], index := w.index[v := PairedWith(p)]);
             && ScavengedFrom(cfg, w', p + 1, r) && ScavengedInOrder(w', r)
             && |w'.client| <= |r.client| && r.client[..|w'.client|] == w'.client
             && v in r.index && r.index[v] == PairedWith(p)
    ensures ScavengedFrom(cfg, w, p, r) && ScavengedInOrder(w, r)
  {
    var w' := w.(client := w.client + [Entry(w.slots[p].value, Scavenged(p))], index := w.index[v := PairedWith(p)]);
    assert r.client[|w.client|] == w'.client[|w.client|];
    forall i | |w'.client| <= i < |r.client|
      ensures Get(w.slots[r.client[i].origin.p].value, cfg.uniqueKey).value != v
    {
      var q := r.client[i].origin.p;
      assert Unclaimed(cfg, w', q, Get(w.slots[q].value, cfg.uniqueKey).value);
    }
  }

  /**
   * The scavenger misses nothing: every live server record from slot `p` on
   * whose key was unclaimed ends up claimed, and the first record with each
   * such key is appended to the client list.
   */
  lemma {:induction false} ScavengeComplete(cfg: Settings, w: Work, p: nat, q: nat, u: Value)
    requires p <= q && Unclaimed(cfg, w, q, u) && LoopServerData(cfg, w, p).Ok?
    ensures u in LoopServerData(cfg, w, p).value.index
    ensures FirstUnclaimed(cfg, w, p, q, u) ==> ScavengedAt(LoopServerData(cfg, w, p).value.client, |w.client|, q)
    decreases |w.slots| - p, 1
  {
    if w.slots[p].None? || !IsLive(cfg, w.slots[p].value) || Get(w.slots[p].value, cfg.uniqueKey).value in w.index {
      assert !Unclaimed(cfg, w, p, u);
      assert LoopServerData(cfg, w, p) == LoopServerData(cfg, w, p + 1);
      ScavengeComplete(cfg, w, p + 1, q, u);
    } else {
      ScavengeCompleteAppend(cfg, w, p, q, u);
    }
  }

  /** `ScavengeComplete` when slot `p` itself is scavenged. */
  lemma {:induction false} ScavengeCompleteAppend(cfg: Settings, w: Work, p: nat, q: nat, u: Value)
    requires p <= q && Unclaimed(cfg, w, q, u) && LoopServerData(cfg, w, p).Ok?
    requires w.slots[p].Some? && IsLive(cfg, w.slots[p].value)
    requires Get(w.slots[p].value, cfg.uniqueKey).value !in w.index
    ensures u in LoopServerData(cfg, w, p).value.index
    ensures FirstUnclaimed(cfg, w, p, q, u) ==> ScavengedAt(LoopServerData(cfg, w, p).value.client, |w.client|, q)
    decreases |w.slots| - p, 0
  {
    var v := Get(w.slots[p].value, cfg.uniqueKey).value;
    var w' := w.(client := w.client + [Entry(w.slots[p].value, Scavenged(p))], index := w.index[v := PairedWith(p)]);
    var r := LoopServerData(cfg, w, p);
    assert r == LoopServerData(cfg, w', p + 1);
    if q == p {
      assert r.value.client[..|w'.client|] == w'.client;
      assert r.value.client[|w.client|].origin == Scavenged(q);
    } else if u == v {
      assert Unclaimed(cfg, w, p, u);
    } else {
      ScavengeStep(cfg, w, w', p, v);
      ScavengeComplete(cfg, w', p + 1, q, u);
      if FirstUnclaimed(cfg, w, p, q, u) {
        ScavengedAtWider(r.value.client, |w.client|, |w'.client|, q);
      }
    }
  }

  /** Some client entry at or after position `from` is the server record of slot `q`. */
  ghost predicate ScavengedAt(client: seq<Entry>, from: nat, q: nat) {
    exists i | from <= i < |client| :: client[i].origin == Scavenged(q)
  }

  lemma ScavengedAtWider(client: seq<Entry>, from: nat, from': nat, q: nat)
    requires from <= from' && ScavengedAt(client, from', q)
    ensures ScavengedAt(client, from, q)
  {
  }

  /** No live unclaimed record between `p` and `q` carries the key `u`. */
  ghost predicate FirstUnclaimed(cfg: Settings, w: Work, p: nat, q: nat, u: Value) {
    forall q' | p <= q' < q :: !Unclaimed(cfg, w, q', u)
  }

  lemma ScavengeStep(cfg: Settings, w: Work, w': Work, p: nat, u: Value)
    requires Unclaimed(cfg, w, p, u) && !u.List?
    requires w' == w.(client := w.client + [Entry(w.slots[p].value, Scavenged(p))], index := w.index[u := PairedWith(p)])
    ensures forall q, v | p + 1 <= q && Unclaimed(cfg, w', q, v) :: Unclaimed(cfg, w, q, v)
    ensures forall q, v | p + 1 <= q && Unclaimed(cfg, w, q, v) && v != u :: Unclaimed(cfg, w', q, v)
    ensures forall q, v | p < q && FirstUnclaimed(cfg, w, p, q, v) && v != u :: FirstUnclaimed(cfg, w', p + 1, q, v)
  {
  }

  // ---------------------------------------------------------------------
  // __sorting_value_validation_and_correction
  // ---------------------------------------------------------------------

  /** The integer in an optional value, 0 for anything else. */
  function AsInt(v: Option<Value>): int {
    match v
    case Some(Int(n)) => n
    case _ => 0
  }

  predicate AllIntegers(client: seq<Entry>, k: string) {
    forall i | 0 <= i < |client| :: Get(client[i].rec, k).Some? && Get(client[i].rec, k).value.Int?
  }

  /** `sync_data_for_local.sort(key=itemgetter(k))`, stable. */
  function SortEntries(client: seq<Entry>, k: string): (r: seq<Entry>)
    ensures |r| == |client|
  {
    var keyed := Keyed(client, k);
    var sorted := Sorting.Sort(keyed);
    seq(|sorted|, i requires 0 <= i < |sorted| => sorted[i].item)
  }

  function Keyed(client: seq<Entry>, k: string): seq<Sorting.Keyed<Entry>> {
    seq(|client|, i requires 0 <= i < |client| => Sorting.Keyed(AsInt(Get(client[i].rec, k)), client[i]))
  }

  /** `d[k] = v` on every client entry whose dictionary is the object `o`. */
  function PutShared(client: seq<Entry>, o: Origin, k: string, v: Value): (r: seq<Entry>)
    ensures |r| == |client|
  {
    seq(|client|, i requires 0 <= i < |client| =>
      if client[i].origin == o then Entry(Put(client[i].rec, k, v), o) else client[i])
  }

  /** `s_data[k] = v` on the server record in slot `p`, seen by every list holding it. */
  function SetOnSlot(w: Work, p: nat, k: string, v: Value): (r: Work)
    ensures |r.client| == |w.client| && |r.slots| == |w.slots|
    ensures r.created == w.created && r.index == w.index
  {
    if p < |w.slots| && w.slots[p].Some? then
      w.(slots := w.slots[p := Some(Put(w.slots[p].value, k, v))],
         client := PutShared(w.client, Scavenged(p), k, v))
    else w
  }

  /** `x[k] = v` on the dictionary behind client entry `i`, seen by every list holding it. */
  function SetOnEntry(w: Work, i: nat, k: string, v: Value): (r: Work)
    requires i < |w.client|
    ensures |r.client| == |w.client| && |r.slots| == |w.slots| && |r.created| == |w.created|
    ensures r.index == w.index
  {
    match w.client[i].origin
    case Own => w.(client := w.client[i := Entry(Put(w.client[i].rec, k, v), Own)])
    case Created(j) =>
      w.(created := if j < |w.created| then w.created[j := Put(w.created[j], k, v)] else w.created,
         client := PutShared(w.client, Created(j), k, v))
    case Scavenged(p) => SetOnSlot(w, p, k, v)
  }

  /**
   * The renumbering loop from position `i` on: position 0 must hold 0 and
   * every later position one more than its predecessor; a value that is off
   * is overwritten and mirrored.
   */
  function Renumber(cfg: Settings, k: string, w: Work, i: nat): (r: Result<Work>)
    requires i <= |w.client|
    ensures r.Ok? ==> |r.value.client| == |w.client| && |r.value.slots| == |w.slots|
    ensures r.Ok? ==> |r.value.created| == |w.created| && r.value.index == w.index
    decreases |w.client| - i
  {
    if i == |w.client| then Ok(w)
    else
      var expected := if i == 0 then 0 else AsInt(Get(w.client[i - 1].rec, k)) + 1;
      if Get(w.client[i].rec, k) == Some(Int(expected)) then Renumber(cfg, k, w, i + 1)
      else
        var rw := Rewrite(cfg, k, w, i, Int(expected));
        if rw.Err? then rw else Renumber(cfg, k, rw.value, i + 1)
  }

  /**
   * One correction of the renumbering loop: `v` is written into the
   * dictionary of client entry `i` and, when the entry's unique key is
   * paired with a server record, into that record too. Looking the key up
   * in the index raises when it is missing.
   */
  function Rewrite(cfg: Settings, k: string, w: Work, i: nat, v: Value): (r: Result<Work>)
    requires i < |w.client|
    ensures r.Ok? ==> |r.value.client| == |w.client| && |r.value.slots| == |w.slots|
    ensures r.Ok? ==> |r.value.created| == |w.created| && r.value.index == w.index
  {
    var w1 := SetOnEntry(w, i, k, v);
    var u :- Lookup(w1.client[i].rec, cfg.uniqueKey);
    if u !in w1.index then Err(SchemaMismatch)
    else
      match w1.index[u]
      case Unpaired => Ok(w1)
      case PairedWith(p) => Ok(SetOnSlot(w1, p, k, v))
  }

  /** The value the renumbering loop demands at position `i`. */
  function Expected(k: string, w: Work, i: nat): (n: int)
    requires i <= |w.client|
    ensures i == 0 ==> n == 0
    ensures i > 0 && Get(w.client[i - 1].rec, k).Some? && Get(w.client[i - 1].rec, k).value.Int? ==>
              n == Get(w.client[i - 1].rec, k).value.i + 1
  {
    if i == 0 then 0 else AsInt(Get(w.client[i - 1].rec, k)) + 1
  }

  /** A position that already holds the value the loop demands is skipped. */
  lemma SkipCase(cfg: Settings, k: string, w: Work, i: nat)
    requires i < |w.client| && Get(w.client[i].rec, k) == Some(Int(Expected(k, w, i)))
    ensures Renumber(cfg, k, w, i) == Renumber(cfg, k, w, i + 1)
  {
  }

  /** A position whose rewrite succeeds: the loop goes on from the rewritten state. */
  lemma RewriteStep(cfg: Settings, k: string, w: Work, i: nat, w2: Work)
    requires i < |w.client| && Get(w.client[i].rec, k) != Some(Int(Expected(k, w, i)))
    requires Rewrite(cfg, k, w, i, Int(Expected(k, w, i))) == Ok(w2)
    ensures Renumber(cfg, k, w, i) == Renumber(cfg, k, w2, i + 1)
  {
  }

  /** A rewrite that fails ends the loop with its error. */
  lemma RewriteFails(cfg: Settings, k: string, w: Work, i: nat)
    requires i < |w.client| && Get(w.client[i].rec, k) != Some(Int(Expected(k, w, i)))
    requires Rewrite(cfg, k, w, i, Int(Expected(k, w, i))).Err?
    ensures Renumber(cfg, k, w, i) == Rewrite(cfg, k, w, i, Int(Expected(k, w, i)))
  {
  }

  /**
   * `__sorting_value_validation_and_correction`: when the sorting key is
   * configured and the first client record (before sorting) has a non-null
   * value for it, sort the client list by that value and renumber it. With
   * two or more records every value must be an integer.
   */
  function SortingValueValidationAndCorrection(cfg: Settings, w: Work): (r: Result<Work>)
    ensures r.Ok? ==> |r.value.client| == |w.client| && |r.value.slots| == |w.slots|
    ensures r.Ok? ==> |r.value.created| == |w.created| && r.value.index == w.index
  {
    if cfg.sortingKey.None? || w.client == [] then Ok(w)
    else
      var k := cfg.sortingKey.value;
      var first := Get(w.client[0].rec, k);
      if first.None? || first.value.Null? then Ok(w)
      else if |w.client| > 1 && !AllIntegers(w.client, k) then Err(SchemaMismatch)
      else Renumber(cfg, k, w.(client := SortEntries(w.client, k)), 0)
  }

  /**
   * `Sync.__compare`: the client list and the server list with the new
   * records appended after the existing ones.
   */
  function Compare(cfg: Settings, now: string, local: seq<Record>, server: seq<Record>): (r: Result<(seq<Record>, seq<Record>)>)
    ensures var m := Merge(Bound(local, server), cfg, now, local, server);
            && (r.Err? <==> m.Err?)
            && (r.Err? ==> r.error == m.error)
    ensures var m := Merge(Bound(local, server), cfg, now, local, server);
            r.Ok? ==>
              var (client, pushed) := r.value;
              var kept := Present(m.value.slots);
              && |client| == |m.value.client|
              && (forall i | 0 <= i < |client| :: client[i] == m.value.client[i].rec)
              && |pushed| == |kept| + |m.value.created|
              && pushed[..|kept|] == kept && pushed[|kept|..] == m.value.created
  {
    var w :- Merge(Bound(local, server), cfg, now, local, server);
    Ok((ClientRecords(w.client), Present(w.slots) + w.created))
  }

  // ---------------------------------------------------------------------
  // Nesting bounds kept by the steps outside the recursive core
  // ---------------------------------------------------------------------

  lemma StripWithin(cfg: Settings, r: Record, b: nat)
    requires RecordWithin(r, b) && StripFlags(cfg, r).Ok?
    ensures RecordWithin(StripFlags(cfg, r).value, b)
  {
    RemoveWithin(r, cfg.isNewKey, b);
    RemoveWithin(Remove(r, cfg.isNewKey), cfg.updatedKey, b);
    RemoveWithin(Remove(Remove(r, cfg.isNewKey), cfg.updatedKey), cfg.deletedKey, b);
  }

  lemma {:induction false} PresentWithin(slots: seq<Option<Record>>, b: nat)
    requires SlotsWithin(slots, b)
    ensures RecordsWithin(Present(slots), b)
    decreases |slots|
  {
    if slots != [] {
      assert SlotsWithin(slots[1..], b) by {
        forall p | 0 <= p < |slots[1..]| && slots[1..][p].Some? ensures RecordWithin(slots[1..][p].value, b) {
          assert slots[1..][p] == slots[p + 1];
        }
      }
      PresentWithin(slots[1..], b);
    }
  }

  lemma ScavengeWithin(cfg: Settings, w: Work, p: nat, b: nat)
    requires p <= |w.slots| && WorkWithin(w, b) && LoopServerData(cfg, w, p).Ok?
    ensures WorkWithin(LoopServerData(cfg, w, p).value, b)
  {
    var r := LoopServerData(cfg, w, p).value;
    ScavengeSound(cfg, w, p, r);
    forall i | 0 <= i < |r.client| ensures RecordWithin(r.client[i].rec, b) {
      if i < |w.client| {
        assert r.client[..|w.client|][i] == w.client[i];
      } else {
        var q := r.client[i].origin.p;
        assert w.slots[q] == Some(r.client[i].rec);
      }
    }
  }

  lemma SortingWithin(cfg: Settings, w: Work, b: nat)
    requires WorkWithin(w, b)
    ensures SortingValueValidationAndCorrection(cfg, w).Ok? ==>
              WorkWithin(SortingValueValidationAndCorrection(cfg, w).value, b)
  {
    if cfg.sortingKey.Some? && w.client != [] {
      var k := cfg.sortingKey.value;
      var first := Get(w.client[0].rec, k);
      if !(first.None? || first.value.Null?) && !(|w.client| > 1 && !AllIntegers(w.client, k)) {
        var sorted := SortEntries(w.client, k);
        SortEntriesMembers(w.client, k);
        var rn := Renumber(cfg, k, w.(client := sorted), 0);
        if rn.Ok? {
          RenumberWithin(cfg, k, w.(client := sorted), 0, b, rn.value);
        }
      }
    }
  }

  lemma SortEntriesMembers(client: seq<Entry>, k: string)
    ensures forall i | 0 <= i < |client| :: SortEntries(client, k)[i] in client
  {
    var keyed := Keyed(client, k);
    var sorted := Sorting.Sort(keyed);
    Sorting.SortPermutes(keyed);
    forall i | 0 <= i < |client| ensures SortEntries(client, k)[i] in client {
      assert sorted[i] in multiset(keyed);
      var j :| 0 <= j < |keyed| && keyed[j] == sorted[i];
      assert SortEntries(client, k)[i] == client[j];
    }
  }

  lemma SetOnSlotWithin(w: Work, p: nat, k: string, n: int, b: nat)
    requires WorkWithin(w, b)
    ensures WorkWithin(SetOnSlot(w, p, k, Int(n)), b)
  {
    if p < |w.slots| && w.slots[p].Some? {
      var r := SetOnSlot(w, p, k, Int(n));
      PutWithin(w.slots[p].value, k, Int(n), b);
      forall i | 0 <= i < |r.client| ensures RecordWithin(r.client[i].rec, b) {
        if w.client[i].origin == Scavenged(p) { PutWithin(w.client[i].rec, k, Int(n), b); }
      }
    }
  }

  lemma SetOnEntryWithin(w: Work, i: nat, k: string, n: int, b: nat)
    requires i < |w.client| && WorkWithin(w, b)
    ensures WorkWithin(SetOnEntry(w, i, k, Int(n)), b)
  {
    var r := SetOnEntry(w, i, k, Int(n));
    match w.client[i].origin
    case Own =>
      PutWithin(w.client[i].rec, k, Int(n), b);
    case Created(j) =>
      if j < |w.created| { PutWithin(w.created[j], k, Int(n), b); }
      forall e | 0 <= e < |r.client| ensures RecordWithin(r.client[e].rec, b) {
        if w.client[e].origin == Created(j) { PutWithin(w.client[e].rec, k, Int(n), b); }
      }
    case Scavenged(p) =>
      SetOnSlotWithin(w, p, k, n, b);
  }

  lemma RewriteWithin(cfg: Settings, k: string, w: Work, i: nat, n: int, b: nat)
    requires i < |w.client| && WorkWithin(w, b)
    ensures Rewrite(cfg, k, w, i, Int(n)).Ok? ==> WorkWithin(Rewrite(cfg, k, w, i, Int(n)).value, b)
  {
    var w1 := SetOnEntry(w, i, k, Int(n));
    SetOnEntryWithin(w, i, k, n, b);
    var u := Get(w1.client[i].rec, cfg.uniqueKey);
    if u.Some? && u.value in w1.index && w1.index[u.value].PairedWith? {
      SetOnSlotWithin(w1, w1.index[u.value].p, k, n, b);
    }
  }

  lemma {:induction false} RenumberWithin(cfg: Settings, k: string, w: Work, i: nat, b: nat, r: Work)
    requires i <= |w.client| && WorkWithin(w, b) && Renumber(cfg, k, w, i) == Ok(r)
    ensures WorkWithin(r, b)
    decreases |w.client| - i
  {
    if i == |w.client| {
      assert r == w;
    } else if Get(w.client[i].rec, k) == Some(Int(Expected(k, w, i))) {
      SkipCase(cfg, k, w, i);
      RenumberWithin(cfg, k, w, i + 1, b, r);
    } else {
      var rw := Rewrite(cfg, k, w, i, Int(Expected(k, w, i)));
      if rw.Err? {
        RewriteFails(cfg, k, w, i);
        assert false;
      }
      RewriteWithin(cfg, k, w, i, Expected(k, w, i), b);
      RewriteStep(cfg, k, w, i, rw.value);
      RenumberWithin(cfg, k, rw.value, i + 1, b, r);
    }
  }
}
