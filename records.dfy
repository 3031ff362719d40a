/**
 * The records the reconciliation engine works on: JSON objects as Python
 * decodes them, i.e. dictionaries whose fields keep their insertion order and
 * whose values are scalars or lists of further records.
 */
module Records {

  datatype Option<T> = None | Some(value: T)

  datatype Value =
    | Null
    | Bool(b: bool)
    | Int(i: int)
    | Str(s: string)
    | List(items: seq<Record>)

  datatype Field = Field(name: string, value: Value)

  /** A dictionary: its fields in insertion order. */
  datatype Record = Record(fields: seq<Field>)

  /** `d.get(k)`: the value stored under `k`, if any. */
  function Get(r: Record, k: string): (v: Option<Value>)
    decreases |r.fields|
  {
    if r.fields == [] then None
    else if r.fields[0].name == k then Some(r.fields[0].value)
    else Get(Record(r.fields[1..]), k)
  }

  /** `Get` finds a field exactly when one carries the name, and returns a stored value. */
  lemma {:induction false} GetFinds(r: Record, k: string)
    ensures Get(r, k).None? <==> forall i | 0 <= i < |r.fields| :: r.fields[i].name != k
    ensures Get(r, k).Some? ==> exists i | 0 <= i < |r.fields| :: r.fields[i] == Field(k, Get(r, k).value)
    decreases |r.fields|
  {
    if r.fields != [] && r.fields[0].name != k {
      GetFinds(Record(r.fields[1..]), k);
      assert forall i | 1 <= i < |r.fields| :: r.fields[i] == r.fields[1..][i - 1];
    }
  }

  /** `d[k] = v`: an existing field keeps its place, a new one goes last. */
  function Put(r: Record, k: string, v: Value): (r': Record)
    ensures Get(r', k) == Some(v)
    ensures forall k' :: k' != k ==> Get(r', k') == Get(r, k')
    ensures Get(r, k).Some? ==> |r'.fields| == |r.fields|
    ensures Get(r, k).None? ==> r'.fields == r.fields + [Field(k, v)]
    ensures forall f :: f in r'.fields ==> f == Field(k, v) || f in r.fields
    decreases |r.fields|
  {
    if r.fields == [] then Record([Field(k, v)])
    else if r.fields[0].name == k then Record([Field(k, v)] + r.fields[1..])
    else Record([r.fields[0]] + Put(Record(r.fields[1..]), k, v).fields)
  }

  /** `del d[k]` once `k` is known to be present: no field named `k` is left. */
  function Remove(r: Record, k: string): (r': Record)
    ensures Get(r', k).None?
    ensures forall k' :: k' != k ==> Get(r', k') == Get(r, k')
    ensures |r'.fields| <= |r.fields|
    ensures forall f :: f in r'.fields ==> f in r.fields
    decreases |r.fields|
  {
    if r.fields == [] then r
    else if r.fields[0].name == k then Remove(Record(r.fields[1..]), k)
    else Record([r.fields[0]] + Remove(Record(r.fields[1..]), k).fields)
  }

  /** No two fields share a name, as in every object JSON decoding produces. */
  predicate DistinctNames(r: Record) {
    forall i, j | 0 <= i < j < |r.fields| :: r.fields[i].name != r.fields[j].name
  }

  /** Replacing an existing field keeps every field name in its place. */
  lemma {:induction false} PutKeepsNames(r: Record, k: string, v: Value)
    requires Get(r, k).Some?
    ensures forall i | 0 <= i < |r.fields| :: Put(r, k, v).fields[i].name == r.fields[i].name
    decreases |r.fields|
  {
    if r.fields[0].name != k {
      PutKeepsNames(Record(r.fields[1..]), k, v);
    }
  }

  lemma PutDistinct(r: Record, k: string, v: Value)
    requires DistinctNames(r)
    ensures DistinctNames(Put(r, k, v))
  {
    if Get(r, k).Some? {
      PutKeepsNames(r, k, v);
    } else {
      GetFinds(r, k);
    }
  }

  /** Writing the same value twice is writing it once. */
  lemma {:induction false} PutTwice(r: Record, k: string, v: Value)
    ensures Put(Put(r, k, v), k, v) == Put(r, k, v)
    decreases |r.fields|
  {
    if r.fields != [] && r.fields[0].name != k {
      PutTwice(Record(r.fields[1..]), k, v);
      assert Put(r, k, v).fields[1..] == Put(Record(r.fields[1..]), k, v).fields;
    }
  }

  /** Python's truth value of a decoded JSON value (`if l_data[flag]:`). */
  predicate Truthy(v: Value) {
    match v
    case Null => false
    case Bool(b) => b
    case Int(i) => i != 0
    case Str(s) => s != []
    case List(items) => items != []
  }

  // Nesting depth. A list one level deep holds records of depth 0 in every
  // field; these predicates bound the depth and give the merge its measure.

  ghost predicate ValueWithin(v: Value, b: nat) {
    match v
    case List(items) => b > 0 && RecordsWithin(items, b - 1)
    case _ => true
  }

  ghost predicate RecordWithin(r: Record, b: nat) {
    forall i | 0 <= i < |r.fields| :: ValueWithin(r.fields[i].value, b)
  }

  ghost predicate RecordsWithin(rs: seq<Record>, b: nat) {
    forall i | 0 <= i < |rs| :: RecordWithin(rs[i], b)
  }

  lemma GetWithin(r: Record, k: string, b: nat)
    requires RecordWithin(r, b) && Get(r, k).Some?
    ensures ValueWithin(Get(r, k).value, b)
  {
    GetFinds(r, k);
    var i :| 0 <= i < |r.fields| && r.fields[i] == Field(k, Get(r, k).value);
  }

  lemma PutWithin(r: Record, k: string, v: Value, b: nat)
    requires RecordWithin(r, b) && ValueWithin(v, b)
    ensures RecordWithin(Put(r, k, v), b)
  {
    var r' := Put(r, k, v);
    forall i | 0 <= i < |r'.fields| ensures ValueWithin(r'.fields[i].value, b) {
      assert r'.fields[i] in r'.fields;
    }
  }

  lemma RemoveWithin(r: Record, k: string, b: nat)
    requires RecordWithin(r, b)
    ensures RecordWithin(Remove(r, k), b)
  {
    var r' := Remove(r, k);
    forall i | 0 <= i < |r'.fields| ensures ValueWithin(r'.fields[i].value, b) {
      assert r'.fields[i] in r'.fields;
    }
  }

  lemma {:induction false} ValueWithinMono(v: Value, b: nat, b': nat)
    requires ValueWithin(v, b) && b <= b'
    ensures ValueWithin(v, b')
    decreases v
  {
    if v.List? {
      forall i | 0 <= i < |v.items| ensures RecordWithin(v.items[i], b' - 1) {
        RecordWithinMono(v.items[i], b - 1, b' - 1);
      }
    }
  }

  lemma {:induction false} RecordWithinMono(r: Record, b: nat, b': nat)
    requires RecordWithin(r, b) && b <= b'
    ensures RecordWithin(r, b')
    decreases r
  {
    forall i | 0 <= i < |r.fields| ensures ValueWithin(r.fields[i].value, b') {
      ValueWithinMono(r.fields[i].value, b, b');
    }
  }

  /** How deeply a value nests lists of records. */
  ghost function ValueHeight(v: Value): (h: nat)
    ensures ValueWithin(v, h)
    decreases v, 1
  {
    match v
    case List(items) =>
      var h := RecordsHeight(items, |items|);
      h + 1
    case _ => 0
  }

  /** The deepest nesting among the first `n` records of `rs`. */
  ghost function RecordsHeight(rs: seq<Record>, n: nat): (h: nat)
    requires n <= |rs|
    ensures forall i | 0 <= i < n :: RecordWithin(rs[i], h)
    decreases rs, n
  {
    if n == 0 then 0
    else
      var h0 := RecordsHeight(rs, n - 1);
      var h1 := RecordHeight(rs[n - 1]);
      var h := if h0 < h1 then h1 else h0;
      forall i | 0 <= i < n ensures RecordWithin(rs[i], h) {
        if i < n - 1 { RecordWithinMono(rs[i], h0, h); } else { RecordWithinMono(rs[i], h1, h); }
      }
      h
  }

  /** The deepest nesting among the fields of `r`. */
  ghost function RecordHeight(r: Record): (h: nat)
    ensures RecordWithin(r, h)
    decreases r, 2
  {
    FieldsHeight(r, |r.fields|)
  }

  ghost function FieldsHeight(r: Record, n: nat): (h: nat)
    requires n <= |r.fields|
    ensures forall i | 0 <= i < n :: ValueWithin(r.fields[i].value, h)
    decreases r, 1, n
  {
    if n == 0 then 0
    else
      var h0 := FieldsHeight(r, n - 1);
      var h1 := ValueHeight(r.fields[n - 1].value);
      var h := if h0 < h1 then h1 else h0;
      forall i | 0 <= i < n ensures ValueWithin(r.fields[i].value, h) {
        if i < n - 1 { ValueWithinMono(r.fields[i].value, h0, h); }
        else { ValueWithinMono(r.fields[i].value, h1, h); }
      }
      h
  }
}
