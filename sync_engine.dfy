/**
 * The `Sync` class of app/src/endpoints/sync.py as it runs: methods that
 * update the lists of one `__compare` call in place, loop over the local and
 * the server records, and recurse into nested lists. Each method is proved to
 * compute what the matching function of `SyncSpec` describes, so every fact
 * proved about those functions holds of the methods.
 *
 * Dictionaries stay values here (a method returns the record it changed);
 * the lists of one `__compare` call are the fields of a `Pass` object.
 */
module SyncEngine {
  import opened Records
  import opened Config
  import opened SyncSpec

  /** The result of a method that updates a pass: its error, or the pass's new state. */
  function Outcome(err: Option<Error>, w: Work): (r: Result<Work>)
    ensures r.Err? <==> err.Some?
    ensures r.Ok? ==> r.value == w
    ensures r.Err? ==> r.error == err.value
  {
    if err.Some? then Err(err.value) else Ok(w)
  }

  /**
   * The lists one call of `__compare` works on: `server_data` (deleted
   * records leave an empty slot), `sync_data_for_local`,
   * `to_add_to_server_data` and `server_data_by_unique`.
   */
  class Pass {
    var slots: seq<Option<Record>>
    var client: seq<Entry>
    var created: seq<Record>
    var index: map<Value, Pairing>

    function State(): Work
      reads this
    {
      Work(slots, client, created, index)
    }

    /** A pass over the server list `server`, with the three other lists empty. */
    constructor (server: seq<Record>)
      ensures State() == Initial(server)
    {
      slots := seq(|server|, i requires 0 <= i < |server| => Some(server[i]));
      client := [];
      created := [];
      index := map[];
    }
  }

  /** One synchronisation request: its settings and the clock reading its stamps use. */
  class Sync {
    const settings: Settings
    const now: string

    constructor (settings: Settings, now: string)
      ensures this.settings == settings && this.now == now
    {
      this.settings := settings;
      this.now := now;
    }

    /** `__compare`: the client list and the server list with the new records appended. */
    method Compare(local: seq<Record>, server: seq<Record>) returns (r: Result<(seq<Record>, seq<Record>)>)
      ensures r == SyncSpec.Compare(settings, now, local, server)
    {
      var w := Merge(Bound(local, server), local, server);
      if w.Err? {
        return Err(w.error);
      }
      return Ok((ClientRecords(w.value.client), Present(w.value.slots) + w.value.created));
    }

    /**
     * `__compare` up to its concatenation. The returned state holds the
     * client list and the server list as the call left it in place, which is
     * what a nested merge's caller reads.
     */
    method Merge(ghost b: nat, local: seq<Record>, server: seq<Record>) returns (r: Result<Work>)
      requires RecordsWithin(local, b) && RecordsWithin(server, b)
      ensures r == SyncSpec.Merge(b, settings, now, local, server)
      decreases b, 8
    {
      var p := new Pass(server);
      var err := LoopLocalData(b, local, p);
      if err.Some? {
        return Err(err.value);
      }
      err := LoopServerData(p);
      if err.Some? {
        return Err(err.value);
      }
      err := SortingValueValidationAndCorrection(p);
      if err.Some? {
        return Err(err.value);
      }
      return Ok(p.State());
    }

    /** `__loop_local_data`: one `LocalStep` per local record, stopping at the first error. */
    method LoopLocalData(ghost b: nat, local: seq<Record>, p: Pass) returns (err: Option<Error>)
      requires RecordsWithin(local, b) && WorkWithin(p.State(), b)
      modifies p
      ensures Outcome(err, p.State()) == SyncSpec.LoopLocalData(b, settings, now, local, old(p.State()))
      decreases b, 7
    {
      var i := 0;
      while i < |local|
        invariant i <= |local| && RecordsWithin(local[i..], b) && WorkWithin(p.State(), b)
        invariant SyncSpec.LoopLocalData(b, settings, now, local, old(p.State()))
                  == SyncSpec.LoopLocalData(b, settings, now, local[i..], p.State())
      {
        assert local[i..][0] == local[i] && local[i..][1..] == local[i + 1..];
        err := LocalStep(b, local[i], p);
        if err.Some? {
          return;
        }
        i := i + 1;
      }
      return None;
    }

    /**
     * The `next(...)` search: the first slot, still holding a record, whose
     * unique key equals `u`; reading a record without a unique key raises.
     */
    method FindSlot(slots: seq<Option<Record>>, u: Value) returns (r: Result<Option<nat>>)
      ensures r == SyncSpec.FindSlot(settings, slots, u, 0)
    {
      var q := 0;
      while q < |slots|
        invariant q <= |slots|
        invariant SyncSpec.FindSlot(settings, slots, u, 0) == SyncSpec.FindSlot(settings, slots, u, q)
      {
        if slots[q].Some? {
          var x := Get(slots[q].value, settings.uniqueKey);
          if x.None? {
            return Err(SchemaMismatch);
          }
          if x.value == u {
            return Ok(Some(q));
          }
        }
        q := q + 1;
      }
      return Ok(None);
    }

    /** One iteration of `__loop_local_data`'s loop, for the local record `l`. */
    method LocalStep(ghost b: nat, l: Record, p: Pass) returns (err: Option<Error>)
      requires RecordWithin(l, b) && WorkWithin(p.State(), b)
      modifies p
      ensures Outcome(err, p.State()) == SyncSpec.LocalStep(b, settings, now, old(p.State()), l)
      decreases b, 6
    {
      var u := Lookup(l, settings.uniqueKey);
      if u.Err? {
        return Some(u.error);
      }
      var pos := FindSlot(p.slots, u.value);
      if pos.Err? {
        return Some(pos.error);
      }
      if u.value.List? {
        return Some(SchemaMismatch);
      }
      p.index := p.index[u.value := if pos.value.Some? then PairedWith(pos.value.value) else Unpaired];
      err := Dispatch(b, u.value, pos.value, l, p);
    }

    /** The flag tests of `__loop_local_data` once the server match `pos` is known. */
    method Dispatch(ghost b: nat, u: Value, pos: Option<nat>, l: Record, p: Pass) returns (err: Option<Error>)
      requires pos.Some? ==> pos.value < |p.slots| && p.slots[pos.value].Some?
                             && Get(p.slots[pos.value].value, settings.uniqueKey) == Some(u)
      requires RecordWithin(l, b) && WorkWithin(p.State(), b)
      modifies p
      ensures Outcome(err, p.State()) == SyncSpec.Dispatch(b, settings, now, old(p.State()), u, pos, l)
      decreases b, 5
    {
      var deleted := Lookup(l, settings.deletedKey);
      if deleted.Err? {
        return Some(deleted.error);
      }
      if Truthy(deleted.value) {
        DeleteOnServer(pos, p);
        return None;
      }
      var isNew := Lookup(l, settings.isNewKey);
      if isNew.Err? {
        return Some(isNew.error);
      }
      if Truthy(isNew.value) {
        err := AddOnServer(b, u, pos, l, p);
      } else if pos.None? || !IsLive(settings, p.slots[pos.value].value) {
        err := None;
      } else {
        err := SyncExisting(b, pos.value, l, p);
      }
    }

    /**
     * `__delete_on_server`: clear the sort position of the matched server
     * record, then stamp it as soft-deleted or take it out of the list.
     */
    method DeleteOnServer(pos: Option<nat>, p: Pass)
      requires pos.Some? ==> pos.value < |p.slots| && p.slots[pos.value].Some?
      modifies p
      ensures p.State() == old(p.State()).(slots := SyncSpec.DeleteOnServer(settings, now, old(p.slots), pos))
    {
      if pos.Some? {
        var s := p.slots[pos.value].value;
        if settings.sortingKey.Some? {
          s := Put(s, settings.sortingKey.value, Null);
        }
        if settings.deletedAtKey.Some? {
          p.slots := p.slots[pos.value := Some(Put(s, settings.deletedAtKey.value, Str(now)))];
        } else {
          p.slots := p.slots[pos.value := None];
        }
      }
    }

    /** `__add_on_server` followed by the flag stripping of the loop. */
    method AddOnServer(ghost b: nat, u: Value, pos: Option<nat>, l: Record, p: Pass) returns (err: Option<Error>)
      requires pos.Some? ==> pos.value < |p.slots| && p.slots[pos.value].Some?
                             && Get(p.slots[pos.value].value, settings.uniqueKey) == Some(u)
      requires RecordWithin(l, b) && WorkWithin(p.State(), b)
      modifies p
      ensures Outcome(err, p.State()) == SyncSpec.AddOnServer(b, settings, now, old(p.State()), u, pos, l)
      decreases b, 4
    {
      if pos.None? {
        err := CreateOnServer(b, l, p);
      } else if IsLive(settings, p.slots[pos.value].value) {
        err := Some(DuplicateKeyConflict(u));
      } else {
        err := Resurrect(b, pos.value, l, p);
      }
    }

    /**
     * A new record with no server copy: stamped, its nested lists merged
     * against nothing, stripped, and appended as one object to the new server
     * records and to the client list.
     */
    method CreateOnServer(ghost b: nat, l: Record, p: Pass) returns (err: Option<Error>)
      requires RecordWithin(l, b) && WorkWithin(p.State(), b)
      modifies p
      ensures Outcome(err, p.State()) == SyncSpec.CreateOnServer(b, settings, now, old(p.State()), l)
      decreases b, 3
    {
      var r1 := SetAudit(l, settings.createdAtKey, now, None).value;
      var r2 := SetAudit(r1, settings.updatedAtKey, now, None).value;
      assert RecordWithin(r2, b) by {
        if settings.createdAtKey.Some? { PutWithin(l, settings.createdAtKey.value, Str(now), b); }
        if settings.updatedAtKey.Some? { PutWithin(r1, settings.updatedAtKey.value, Str(now), b); }
      }
      var pair := LoopDataAttrs(b, r2, None, false);
      if pair.Err? {
        return Some(pair.error);
      }
      var rec := StripFlags(settings, pair.value.0);
      if rec.Err? {
        return Some(rec.error);
      }
      p.client := p.client + [Entry(rec.value, Created(|p.created|))];
      p.created := p.created + [rec.value];
      return None;
    }

    /**
     * A new record whose server copy in slot `q` was soft-deleted: the copy
     * is revived with the record's sort position and a fresh update stamp.
     */
    method Resurrect(ghost b: nat, q: nat, l: Record, p: Pass) returns (err: Option<Error>)
      requires q < |p.slots| && p.slots[q].Some? && !IsLive(settings, p.slots[q].value)
      requires RecordWithin(l, b) && WorkWithin(p.State(), b)
      modifies p
      ensures Outcome(err, p.State()) == SyncSpec.Resurrect(b, settings, now, old(p.State()), q, l)
    {
      var s := Put(p.slots[q].value, settings.deletedAtKey.value, Null);
      var s2 := SetAudit(s, settings.sortingKey, now, Some(l));
      if s2.Err? {
        return Some(s2.error);
      }
      var s3 := SetAudit(s2.value, settings.updatedAtKey, now, None).value;
      var rec := StripFlags(settings, l);
      if rec.Err? {
        return Some(rec.error);
      }
      p.slots := p.slots[q := Some(s3)];
      p.client := p.client + [Entry(rec.value, Own)];
      return None;
    }

    /**
     * A local record, neither deleted nor new, whose live server copy is in
     * slot `q`: push its fields when it is flagged updated, pull the server's
     * otherwise, and hand the stripped record to the client.
     */
    method SyncExisting(ghost b: nat, q: nat, l: Record, p: Pass) returns (err: Option<Error>)
      requires q < |p.slots| && p.slots[q].Some?
      requires RecordWithin(l, b) && WorkWithin(p.State(), b)
      modifies p
      ensures Outcome(err, p.State()) == SyncSpec.SyncExisting(b, settings, now, old(p.State()), q, l)
      decreases b, 4
    {
      var pair := PushOrPull(b, l, p.slots[q].value);
      match pair
      case Err(e) =>
        return Some(e);
      case Ok((mine, theirs)) =>
        match StripFlags(settings, mine)
        case Err(e) =>
          return Some(e);
        case Ok(rec) =>
          p.slots, p.client := p.slots[q := theirs], p.client + [Entry(rec, Own)];
          return None;
    }

    /** An updated local record is pushed to its server copy `s`; any other pulls from it. */
    method PushOrPull(ghost b: nat, l: Record, s: Record) returns (r: Result<(Record, Option<Record>)>)
      requires RecordWithin(l, b) && RecordWithin(s, b)
      ensures r == SyncSpec.PushOrPull(b, settings, now, l, s)
      decreases b, 3
    {
      var updated := Lookup(l, settings.updatedKey);
      if updated.Err? {
        return Err(updated.error);
      }
      if Truthy(updated.value) {
        r := EditOnServer(b, l, s);
      } else {
        r := LoopDataAttrs(b, l, Some(s), true);
      }
    }

    /** `__edit_on_server`: stamp the local record, then push its differing fields. */
    method EditOnServer(ghost b: nat, l: Record, s: Record) returns (r: Result<(Record, Option<Record>)>)
      requires RecordWithin(l, b) && RecordWithin(s, b)
      ensures r == SyncSpec.EditOnServer(b, settings, now, l, s)
      decreases b, 2
    {
      var stamped := EditStamps(settings, now, l, s);
      if stamped.Err? {
        return Err(stamped.error);
      }
      EditStampsWithin(settings, now, l, s, b);
      r := LoopDataAttrs(b, stamped.value, Some(s), false);
    }

    /**
     * `__loop_data_attrs`: one `AttrStep` per field of `l` as it was when
     * the loop started, threading the local and the server record through.
     */
    method LoopDataAttrs(ghost b: nat, l: Record, s: Option<Record>, editOnLocal: bool)
      returns (r: Result<(Record, Option<Record>)>)
      requires RecordWithin(l, b) && (s.Some? ==> RecordWithin(s.value, b))
      ensures r == SyncSpec.LoopDataAttrs(b, settings, now, l.fields, l, s, editOnLocal)
      decreases b, 1, 1
    {
      var fields := l.fields;
      var mine, theirs := l, s;
      var i := 0;
      while i < |fields|
        invariant i <= |fields| && FieldsWithin(fields[i..], b)
        invariant RecordWithin(mine, b) && (theirs.Some? ==> RecordWithin(theirs.value, b))
        invariant SyncSpec.LoopDataAttrs(b, settings, now, fields, l, s, editOnLocal)
                  == SyncSpec.LoopDataAttrs(b, settings, now, fields[i..], mine, theirs, editOnLocal)
      {
        assert fields[i..][0] == fields[i] && fields[i..][1..] == fields[i + 1..];
        var step := AttrStep(b, fields[i], mine, theirs, editOnLocal);
        if step.Err? {
          return Err(step.error);
        }
        mine, theirs := step.value.0, step.value.1;
        i := i + 1;
      }
      return Ok((mine, theirs));
    }

    /**
     * One iteration of `__loop_data_attrs`, for the local field `f`: a list
     * is merged recursively, a differing scalar copied in the direction
     * `editOnLocal` chooses.
     */
    method AttrStep(ghost b: nat, f: Field, l: Record, s: Option<Record>, editOnLocal: bool)
      returns (r: Result<(Record, Option<Record>)>)
      requires ValueWithin(f.value, b) && RecordWithin(l, b) && (s.Some? ==> RecordWithin(s.value, b))
      ensures r == SyncSpec.AttrStep(b, settings, now, f, l, s, editOnLocal)
      decreases b, 1, 0
    {
      var key, value := f.name, f.value;
      if IsSkipped(settings, key) {
        return Ok((l, s));
      }
      if value.List? {
        r := NestedStep(b, key, value.items, l, s);
        return;
      }
      if s.None? {
        return Ok((l, s));
      }
      var mine := Lookup(s.value, key);
      if mine.Err? {
        return Err(mine.error);
      }
      if value == mine.value {
        return Ok((l, s));
      } else if editOnLocal {
        return Ok((Put(l, key, mine.value), s));
      } else {
        return Ok((l, Some(Put(s.value, key, value))));
      }
    }

    /**
     * The list branch of `__loop_data_attrs`: merge the local list under
     * `key` against the server's, recursively.
     */
    method NestedStep(ghost b: nat, key: string, items: seq<Record>, l: Record, s: Option<Record>)
      returns (r: Result<(Record, Option<Record>)>)
      requires ValueWithin(List(items), b) && RecordWithin(l, b) && (s.Some? ==> RecordWithin(s.value, b))
      ensures r == SyncSpec.NestedStep(b, settings, now, key, items, l, s)
      decreases b, 0, 0
    {
      var theirs := NestedServer(s, key);
      if theirs.Err? {
        return Err(theirs.error);
      }
      assert RecordsWithin(theirs.value, b - 1) by {
        if s.Some? && Get(s.value, key).value.List? { GetWithin(s.value, key, b); }
      }
      var w := Merge(b - 1, items, theirs.value);
      if w.Err? {
        return Err(w.error);
      }
      var l' := Put(l, key, List(ClientRecords(w.value.client)));
      var s' := if s.Some? && Get(s.value, key).value.List? then Some(Put(s.value, key, List(Present(w.value.slots)))) else s;
      return Ok((l', s'));
    }

    /**
     * `__loop_server_data`: every live server record whose unique key no
     * local record claimed goes to the client as the same object.
     */
    method LoopServerData(p: Pass) returns (err: Option<Error>)
      modifies p
      ensures Outcome(err, p.State()) == SyncSpec.LoopServerData(settings, old(p.State()), 0)
    {
      var q := 0;
      while q < |p.slots|
        invariant q <= |p.slots| && p.slots == old(p.slots)
        invariant SyncSpec.LoopServerData(settings, old(p.State()), 0) == SyncSpec.LoopServerData(settings, p.State(), q)
      {
        if p.slots[q].Some? && IsLive(settings, p.slots[q].value) {
          var s := p.slots[q].value;
          var u := Lookup(s, settings.uniqueKey);
          if u.Err? {
            return Some(u.error);
          }
          if u.value.List? {
            return Some(SchemaMismatch);
          }
          if u.value !in p.index {
            p.client := p.client + [Entry(s, Scavenged(q))];
            p.index := p.index[u.value := PairedWith(q)];
          }
        }
        q := q + 1;
      }
      return None;
    }

    /**
     * `__sorting_value_validation_and_correction`: when the first client
     * record carries a non-null sort value, sort the client list by it and
     * renumber.
     */
    method SortingValueValidationAndCorrection(p: Pass) returns (err: Option<Error>)
      modifies p
      ensures Outcome(err, p.State()) == SyncSpec.SortingValueValidationAndCorrection(settings, old(p.State()))
    {
      if settings.sortingKey.None? || p.client == [] {
        return None;
      }
      var k := settings.sortingKey.value;
      var first := Get(p.client[0].rec, k);
      if first.None? || first.value.Null? {
        return None;
      }
      if |p.client| > 1 && !AllIntegers(p.client, k) {
        return Some(SchemaMismatch);
      }
      p.client := SortEntries(p.client, k);
      err := Renumber(k, p);
    }

    /**
     * The renumbering loop: position 0 must hold 0 and every later position
     * one more than its predecessor.
     */
    method Renumber(k: string, p: Pass) returns (err: Option<Error>)
      modifies p
      ensures Outcome(err, p.State()) == SyncSpec.Renumber(settings, k, old(p.State()), 0)
    {
      ghost var target := SyncSpec.Renumber(settings, k, p.State(), 0);
      var i := 0;
      while i < |p.client|
        invariant i <= |p.client| && target == SyncSpec.Renumber(settings, k, p.State(), i)
      {
        err := RenumberAt(k, i, p);
        if err.Some? {
          return;
        }
        i := i + 1;
      }
      return None;
    }

    /** One iteration of the renumbering loop: position `i` is corrected when it is off. */
    method RenumberAt(k: string, i: nat, p: Pass) returns (err: Option<Error>)
      requires i < |p.client|
      modifies p
      ensures err.None? ==> |p.client| == old(|p.client|)
      ensures err.Some? ==> SyncSpec.Renumber(settings, k, old(p.State()), i) == Err(err.value)
      ensures err.None? ==> SyncSpec.Renumber(settings, k, old(p.State()), i) == SyncSpec.Renumber(settings, k, p.State(), i + 1)
    {
      ghost var w := p.State();
      var expected := if i == 0 then 0 else AsInt(Get(p.client[i - 1].rec, k)) + 1;
      assert expected == Expected(k, w, i);
      if Get(p.client[i].rec, k) == Some(Int(expected)) {
        SkipCase(settings, k, w, i);
        return None;
      }
      err := Rewrite(k, i, Int(expected), p);
      if err.Some? {
        RewriteFails(settings, k, w, i);
      } else {
        RewriteStep(settings, k, w, i, p.State());
      }
    }

    /**
     * One correction: `v` goes into client entry `i` and, when its unique
     * key is paired with a server record, into that record as well.
     */
    method Rewrite(k: string, i: nat, v: Value, p: Pass) returns (err: Option<Error>)
      requires i < |p.client|
      modifies p
      ensures Outcome(err, p.State()) == SyncSpec.Rewrite(settings, k, old(p.State()), i, v)
    {
      var w := SetOnEntry(p.State(), i, k, v);
      p.slots, p.client, p.created := w.slots, w.client, w.created;
      var u := Lookup(p.client[i].rec, settings.uniqueKey);
      if u.Err? {
        return Some(u.error);
      }
      if u.value !in p.index {
        return Some(SchemaMismatch);
      }
      match p.index[u.value]
      case Unpaired =>
        return None;
      case PairedWith(q) =>
        w := SetOnSlot(p.State(), q, k, v);
        p.slots, p.client := w.slots, w.client;
        return None;
    }
  }
}
