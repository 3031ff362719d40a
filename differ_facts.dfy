/**
 * What `__loop_data_attrs` and `__edit_on_server` guarantee about the scalar
 * fields of a local record and its server copy (app/src/endpoints/sync.py,
 * lines 102-110 and 142-164).
 */
module DifferFacts {
  import opened Records
  import opened Config
  import opened SyncSpec

  /** Every field of `fields` is the field of that name in `l`. */
  ghost predicate FieldsOf(fields: seq<Field>, l: Record) {
    forall i | 0 <= i < |fields| :: Get(l, fields[i].name) == Some(fields[i].value)
  }

  /** A field the differ compares and copies: not skipped and not a nested list. */
  predicate Compared(cfg: Settings, f: Field) {
    !IsSkipped(cfg, f.name) && !f.value.List?
  }

  /** A record whose names are distinct is described by its own fields. */
  lemma FieldsOfDistinct(r: Record)
    requires DistinctNames(r)
    ensures FieldsOf(r.fields, r)
  {
    forall i | 0 <= i < |r.fields| ensures Get(r, r.fields[i].name) == Some(r.fields[i].value) {
      var v := Get(r, r.fields[i].name);
      GetFinds(r, r.fields[i].name);
      var j :| 0 <= j < |r.fields| && r.fields[j] == Field(r.fields[i].name, v.value);
    }
  }

  /**
   * One differ step on a compared field that `l` holds: pull leaves the
   * server's value on both sides, push the local one.
   */
  lemma AttrStepScalar(b: nat, cfg: Settings, now: string, f: Field, l: Record, s: Record, editOnLocal: bool)
    requires ValueWithin(f.value, b) && RecordWithin(l, b) && RecordWithin(s, b)
    requires Compared(cfg, f) && Get(l, f.name) == Some(f.value)
    requires AttrStep(b, cfg, now, f, l, Some(s), editOnLocal).Ok?
    ensures var r := AttrStep(b, cfg, now, f, l, Some(s), editOnLocal).value;
            Directed(Get(r.0, f.name), Get(r.1.value, f.name), Get(s, f.name), f.value, editOnLocal)
  {
  }

  /** Both sides hold the server's old value (pull) or the local one (push). */
  predicate Directed(local: Option<Value>, server: Option<Value>, theirs: Option<Value>, mine: Value, editOnLocal: bool) {
    if editOnLocal then local == theirs && server == theirs
    else local == Some(mine) && server == Some(mine)
  }

  /**
   * The differ's direction: after it ran against a server record, every
   * compared field of the local record holds the server's value on both
   * sides in pull mode (`editOnLocal`), and the local value on both sides in
   * push mode.
   */
  lemma {:induction false} DifferScalars(b: nat, cfg: Settings, now: string, fields: seq<Field>,
                                         l: Record, s: Record, editOnLocal: bool)
    requires FieldsWithin(fields, b) && RecordWithin(l, b) && RecordWithin(s, b)
    requires DistinctNames(Record(fields)) && FieldsOf(fields, l)
    requires LoopDataAttrs(b, cfg, now, fields, l, Some(s), editOnLocal).Ok?
    ensures var r := LoopDataAttrs(b, cfg, now, fields, l, Some(s), editOnLocal).value;
            forall i | 0 <= i < |fields| && Compared(cfg, fields[i]) ::
              Directed(Get(r.0, fields[i].name), Get(r.1.value, fields[i].name), Get(s, fields[i].name),
                       fields[i].value, editOnLocal)
    decreases |fields|
  {
    if fields != [] {
      var key := fields[0].name;
      var rest := fields[1..];
      assert FieldsWithin(rest, b);
      assert DistinctNames(Record(rest)) by {
        forall i, j | 0 <= i < j < |rest| ensures rest[i].name != rest[j].name {
          assert rest[i] == fields[i + 1] && rest[j] == fields[j + 1];
        }
      }
      assert Get(Record(rest), key).None? by {
        forall i | 0 <= i < |rest| ensures rest[i].name != key {
          assert rest[i] == fields[i + 1];
        }
        GetFinds(Record(rest), key);
      }
      var st := AttrStep(b, cfg, now, fields[0], l, Some(s), editOnLocal).value;
      var r := LoopDataAttrs(b, cfg, now, rest, st.0, st.1, editOnLocal).value;
      assert FieldsOf(rest, st.0) by {
        forall i | 0 <= i < |rest| ensures Get(st.0, rest[i].name) == Some(rest[i].value) {
          assert rest[i] == fields[i + 1];
        }
      }
      DifferScalars(b, cfg, now, rest, st.0, st.1.value, editOnLocal);
      if Compared(cfg, fields[0]) {
        AttrStepScalar(b, cfg, now, fields[0], l, s, editOnLocal);
      }
      forall i | 1 <= i < |fields| && Compared(cfg, fields[i])
        ensures Directed(Get(r.0, fields[i].name), Get(r.1.value, fields[i].name), Get(s, fields[i].name),
                         fields[i].value, editOnLocal)
      {
        assert fields[i] == rest[i - 1];
      }
    }
  }

  /**
   * Without a server record (a record being created) the differ changes no
   * scalar field: only nested lists are merged.
   */
  lemma {:induction false} DifferWithoutServer(b: nat, cfg: Settings, now: string, fields: seq<Field>,
                                               l: Record, editOnLocal: bool)
    requires FieldsWithin(fields, b) && RecordWithin(l, b)
    requires DistinctNames(Record(fields)) && FieldsOf(fields, l)
    requires LoopDataAttrs(b, cfg, now, fields, l, None, editOnLocal).Ok?
    ensures var r := LoopDataAttrs(b, cfg, now, fields, l, None, editOnLocal).value;
            forall i | 0 <= i < |fields| && !fields[i].value.List? :: Get(r.0, fields[i].name) == Some(fields[i].value)
    decreases |fields|
  {
    if fields != [] {
      var key := fields[0].name;
      var rest := fields[1..];
      assert FieldsWithin(rest, b);
      assert DistinctNames(Record(rest)) by {
        forall i, j | 0 <= i < j < |rest| ensures rest[i].name != rest[j].name {
          assert rest[i] == fields[i + 1] && rest[j] == fields[j + 1];
        }
      }
      assert Get(Record(rest), key).None? by {
        forall i | 0 <= i < |rest| ensures rest[i].name != key {
          assert rest[i] == fields[i + 1];
        }
        GetFinds(Record(rest), key);
      }
      var st := AttrStep(b, cfg, now, fields[0], l, None, editOnLocal).value;
      var r := LoopDataAttrs(b, cfg, now, rest, st.0, st.1, editOnLocal).value;
      assert FieldsOf(rest, st.0) by {
        forall i | 0 <= i < |rest| ensures Get(st.0, rest[i].name) == Some(rest[i].value) {
          assert rest[i] == fields[i + 1];
        }
      }
      DifferWithoutServer(b, cfg, now, rest, st.0, editOnLocal);
      forall i | 1 <= i < |fields| && !fields[i].value.List?
        ensures Get(r.0, fields[i].name) == Some(fields[i].value)
      {
        assert fields[i] == rest[i - 1];
      }
    }
  }

  lemma EditStampsDistinct(cfg: Settings, now: string, l: Record, s: Record)
    requires DistinctNames(l) && EditStamps(cfg, now, l, s).Ok?
    ensures DistinctNames(EditStamps(cfg, now, l, s).value)
  {
    var r1 := SetAudit(l, cfg.updatedAtKey, now, None).value;
    if cfg.updatedAtKey.Some? { PutDistinct(l, cfg.updatedAtKey.value, Str(now)); }
    if cfg.createdAtKey.Some? { PutDistinct(r1, cfg.createdAtKey.value, Get(s, cfg.createdAtKey.value).value); }
  }

  /** After `__edit_on_server`, both records hold every compared field of the stamped local record. */
  lemma EditPushesField(b: nat, cfg: Settings, now: string, l: Record, s: Record, k: string)
    requires RecordWithin(l, b) && RecordWithin(s, b) && DistinctNames(l)
    requires EditOnServer(b, cfg, now, l, s).Ok?
    requires Get(EditStamps(cfg, now, l, s).value, k).Some?
    requires Compared(cfg, Field(k, Get(EditStamps(cfg, now, l, s).value, k).value))
    ensures var r := EditOnServer(b, cfg, now, l, s).value;
            var v := Get(EditStamps(cfg, now, l, s).value, k);
            Get(r.0, k) == v && Get(r.1.value, k) == v
  {
    var r2 := EditStamps(cfg, now, l, s).value;
    EditStampsWithin(cfg, now, l, s, b);
    EditStampsDistinct(cfg, now, l, s);
    FieldsOfDistinct(r2);
    DifferScalars(b, cfg, now, r2.fields, r2, s, false);
    GetFinds(r2, k);
    var i :| 0 <= i < |r2.fields| && r2.fields[i] == Field(k, Get(r2, k).value);
  }

  /**
   * `__edit_on_server`: afterwards the local record and the server record
   * both hold the fresh update stamp, the server's creation stamp, and every
   * other compared field of the local record.
   */
  lemma EditOnServerPushes(b: nat, cfg: Settings, now: string, l: Record, s: Record)
    requires RecordWithin(l, b) && RecordWithin(s, b)
    requires WellFormed(cfg) && DistinctNames(l)
    requires EditOnServer(b, cfg, now, l, s).Ok?
    ensures var r := EditOnServer(b, cfg, now, l, s).value;
            && (cfg.updatedAtKey.Some? ==>
                  Get(r.0, cfg.updatedAtKey.value) == Some(Str(now))
                  && Get(r.1.value, cfg.updatedAtKey.value) == Some(Str(now)))
            && (cfg.createdAtKey.Some? && !Get(s, cfg.createdAtKey.value).value.List? ==>
                  Get(r.0, cfg.createdAtKey.value) == Get(s, cfg.createdAtKey.value)
                  && Get(r.1.value, cfg.createdAtKey.value) == Get(s, cfg.createdAtKey.value))
    ensures var r := EditOnServer(b, cfg, now, l, s).value;
            forall k | Get(l, k).Some? && Compared(cfg, Field(k, Get(l, k).value))
                       && !Names(cfg.createdAtKey, k) && !Names(cfg.updatedAtKey, k) ::
              Get(r.0, k) == Get(l, k) && Get(r.1.value, k) == Get(l, k)
  {
    if cfg.updatedAtKey.Some? { EditPushesField(b, cfg, now, l, s, cfg.updatedAtKey.value); }
    if cfg.createdAtKey.Some? && !Get(s, cfg.createdAtKey.value).value.List? {
      EditPushesField(b, cfg, now, l, s, cfg.createdAtKey.value);
    }
    forall k | Get(l, k).Some? && Compared(cfg, Field(k, Get(l, k).value))
               && !Names(cfg.createdAtKey, k) && !Names(cfg.updatedAtKey, k)
      ensures var r := EditOnServer(b, cfg, now, l, s).value;
              Get(r.0, k) == Get(l, k) && Get(r.1.value, k) == Get(l, k)
    {
      EditPushesField(b, cfg, now, l, s, k);
    }
  }

  /** The optional value is a list. */
  predicate IsList(v: Option<Value>) {
    v.Some? && v.value.List?
  }

  /**
   * A local field `k` holding a nested list still holds a list after the
   * differ: it is either skipped or replaced by the merged client records.
   */
  lemma {:induction false} DifferKeepsList(b: nat, cfg: Settings, now: string, fields: seq<Field>,
                                           l: Record, s: Option<Record>, editOnLocal: bool, k: string)
    requires FieldsWithin(fields, b) && RecordWithin(l, b) && (s.Some? ==> RecordWithin(s.value, b))
    requires IsList(Get(l, k)) && forall i | 0 <= i < |fields| && fields[i].name == k :: fields[i].value.List?
    requires LoopDataAttrs(b, cfg, now, fields, l, s, editOnLocal).Ok?
    ensures IsList(Get(LoopDataAttrs(b, cfg, now, fields, l, s, editOnLocal).value.0, k))
    decreases |fields|
  {
    if fields != [] {
      var st := AttrStep(b, cfg, now, fields[0], l, s, editOnLocal).value;
      if fields[0].name == k && !IsSkipped(cfg, k) {
        assert st == NestedStep(b, cfg, now, k, fields[0].value.items, l, s).value;
      }
      assert FieldsWithin(fields[1..], b);
      assert LoopDataAttrs(b, cfg, now, fields, l, s, editOnLocal) == LoopDataAttrs(b, cfg, now, fields[1..], st.0, st.1, editOnLocal);
      DifferKeepsList(b, cfg, now, fields[1..], st.0, st.1, editOnLocal, k);
    }
  }

  /**
   * The nested half of the differ: a list field `key` is merged against the
   * server record's list (or `[]`). The local field becomes the nested
   * merge's client list. A server list becomes the list that merge left in
   * place, without the nested created records, which the caller discards.
   * A server record without a list is left as it was. A failure of either
   * step is the differ's failure.
   */
  lemma NestedStepMerges(b: nat, cfg: Settings, now: string, key: string, items: seq<Record>,
                         l: Record, s: Option<Record>)
    requires ValueWithin(List(items), b) && RecordWithin(l, b) && (s.Some? ==> RecordWithin(s.value, b))
    ensures NestedServer(s, key).Err? ==> NestedStep(b, cfg, now, key, items, l, s) == Err(NestedServer(s, key).error)
    ensures NestedServer(s, key).Ok? ==>
              && b > 0 && RecordsWithin(items, b - 1) && RecordsWithin(NestedServer(s, key).value, b - 1)
              && var m, r := Merge(b - 1, cfg, now, items, NestedServer(s, key).value),
                            NestedStep(b, cfg, now, key, items, l, s);
                 && (m.Err? ==> r == Err(m.error))
                 && (m.Ok? ==>
                       && r.Ok?
                       && Get(r.value.0, key) == Some(List(ClientRecords(m.value.client)))
                       && (s.Some? && Get(s.value, key).value.List? ==>
                             Get(r.value.1.value, key) == Some(List(Present(m.value.slots))))
                       && (!(s.Some? && Get(s.value, key).value.List?) ==> r.value.1 == s))
  {
    if s.Some? && Get(s.value, key).Some? && Get(s.value, key).value.List? {
      GetWithin(s.value, key, b);
    }
  }
}
