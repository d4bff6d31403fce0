/**
 * Documents as the clinic stores them in its document database: maps from
 * field names to JSON-like values, collections of them with the
 * insert / find / `$set` / delete operations the handlers use, the sort
 * order the database applies to `.sort(...)`, and the named counters that
 * hand out sequence numbers.
 */
module Documents {
  import opened Wrappers
  import opened Text
  import Sorting

  /** A stored or submitted value; `Stamp` is a date-time, in minutes. */
  datatype Value = Null | Int(i: int) | Str(s: string) | Bool(b: bool) | Stamp(t: int) | Arr(items: seq<Value>)

  type Doc = map<string, Value>

  /** `doc.get(key)`: an absent field reads as None. */
  function Get(d: Doc, key: string): Value
  {
    if key in d then d[key] else Null
  }

  /** `doc.get(key, default)`. */
  function GetOr(d: Doc, key: string, default: Value): Value
  {
    if key in d then d[key] else default
  }

  /** Python truthiness of a value. */
  predicate Truthy(v: Value)
  {
    match v
    case Null => false
    case Int(i) => i != 0
    case Str(s) => s != ""
    case Bool(b) => b
    case Stamp(_) => true
    case Arr(items) => items != []
  }

  /** `data.get(key) is not None`. */
  predicate Supplied(d: Doc, key: string)
  {
    key in d && d[key] != Null
  }

  /** `str(v)` as an f-string prints a string, an integer, a boolean or None. */
  function Display(v: Value): string
  {
    match v
    case Null => "None"
    case Int(i) => if i < 0 then "-" + NatToString(-i) else NatToString(i)
    case Str(s) => s
    case Bool(b) => if b then "True" else "False"
    case Stamp(_) => ""
    case Arr(_) => ""
  }

  // ---------------------------------------------------------------------
  // Equality filters and the first match
  // ---------------------------------------------------------------------

  /** The equality filter `{key: v}`; a missing field compares as null. */
  function FieldEquals(key: string, v: Value): Doc -> bool
  {
    d => Get(d, key) == v
  }

  /** The index of the first document satisfying the filter (the one find_one and the *_one writes touch). */
  function FirstMatch(docs: seq<Doc>, filter: Doc -> bool): (r: Option<nat>)
    ensures r.Some? ==> r.value < |docs| && filter(docs[r.value])
    ensures r.Some? ==> forall j :: 0 <= j < r.value ==> !filter(docs[j])
    ensures r.None? ==> forall j :: 0 <= j < |docs| ==> !filter(docs[j])
  {
    if docs == [] then None
    else if filter(docs[0]) then Some(0)
    else
      var r := FirstMatch(docs[1..], filter);
      if r.Some? then Some(r.value + 1) else None
  }

  /** Replacing the first match by another match leaves the first match where it was. */
  lemma {:induction false} FirstMatchAfterSet(docs: seq<Doc>, filter: Doc -> bool, i: nat, d: Doc)
    requires FirstMatch(docs, filter) == Some(i) && filter(d)
    ensures FirstMatch(docs[i := d], filter) == Some(i)
  {
    if i > 0 {
      assert docs[i := d][1..] == docs[1..][i - 1 := d];
      FirstMatchAfterSet(docs[1..], filter, i - 1, d);
    }
  }

  /** find_one: the first matching document, or None. */
  function FindOne(docs: seq<Doc>, filter: Doc -> bool): (r: Option<Doc>)
    ensures r.Some? ==> r.value in docs && filter(r.value)
    ensures r.None? <==> forall j :: 0 <= j < |docs| ==> !filter(docs[j])
  {
    var m := FirstMatch(docs, filter);
    if m.Some? then Some(docs[m.value]) else None
  }

  /** `{k: v for k, v in d.items() if v is not None}`. */
  function WithoutNulls(d: Doc): (r: Doc)
    ensures forall k :: k in r <==> k in d && d[k] != Null
    ensures forall k :: k in r ==> r[k] == d[k]
  {
    map k | k in d && d[k] != Null :: d[k]
  }

  /** Adding one more argument to the dictionary adds it to the update exactly when it is not None. */
  lemma WithoutNullsExtend(d: Doc, key: string, v: Value)
    requires key !in d
    ensures WithoutNulls(d[key := v]) == if v != Null then WithoutNulls(d)[key := v] else WithoutNulls(d)
  {
  }

  /** `if v is not None: u[key] = v`. */
  function SetGiven(u: Doc, key: string, v: Value): (r: Doc)
    ensures key !in u ==> Get(r, key) == v
    ensures forall k :: k != key ==> Get(r, k) == Get(u, k)
  {
    if v != Null then u[key := v] else u
  }

  function RemoveAt<T>(s: seq<T>, i: nat): (r: seq<T>)
    requires i < |s|
    ensures |r| == |s| - 1
    ensures forall j :: 0 <= j < i ==> r[j] == s[j]
    ensures forall j :: i <= j < |r| ==> r[j] == s[j + 1]
  {
    s[..i] + s[i + 1..]
  }

  /** `$set`: the updated fields replace or extend the document; every other field is kept. */
  function SetFields(d: Doc, update: Doc): (r: Doc)
    ensures r.Keys == d.Keys + update.Keys
    ensures forall k :: k in update ==> r[k] == update[k]
    ensures forall k :: k in d && k !in update ==> r[k] == d[k]
  {
    d + update
  }

  // ---------------------------------------------------------------------
  // Sort order
  // ---------------------------------------------------------------------

  /** The database orders values of different kinds null, numbers, strings, arrays, booleans, dates. */
  function Rank(v: Value): nat
  {
    match v
    case Null => 0
    case Int(_) => 1
    case Str(_) => 2
    case Arr(_) => 3
    case Bool(_) => 4
    case Stamp(_) => 5
  }

  /** Ascending order on sort keys; arrays are treated as ties. */
  predicate ValueLe(a: Value, b: Value)
  {
    if Rank(a) != Rank(b) then Rank(a) < Rank(b)
    else match a
      case Int(x) => x <= b.i
      case Str(x) => StrLe(x, b.s)
      case Bool(x) => !x || b.b
      case Stamp(x) => x <= b.t
      case _ => true
  }

  lemma ValueLeTotal(a: Value, b: Value)
    ensures ValueLe(a, b) || ValueLe(b, a)
  {
    if a.Str? && b.Str? {
      StrLeTotal(a.s, b.s);
    }
  }

  lemma ValueLeTrans(a: Value, b: Value, c: Value)
    requires ValueLe(a, b) && ValueLe(b, c)
    ensures ValueLe(a, c)
  {
    if a.Str? && b.Str? && c.Str? {
      StrLeTrans(a.s, b.s, c.s);
    }
  }

  /** `.sort([(k1, 1), (k2, 1), ...])`: lexicographic on the listed fields, missing ones as null. */
  predicate KeysLe(a: Doc, b: Doc, keys: seq<string>)
    decreases |keys|
  {
    if keys == [] then true
    else if ValueLe(Get(a, keys[0]), Get(b, keys[0])) && ValueLe(Get(b, keys[0]), Get(a, keys[0]))
    then KeysLe(a, b, keys[1..])
    else ValueLe(Get(a, keys[0]), Get(b, keys[0]))
  }

  lemma {:induction false} KeysLeTotal(a: Doc, b: Doc, keys: seq<string>)
    ensures KeysLe(a, b, keys) || KeysLe(b, a, keys)
    decreases |keys|
  {
    if keys != [] {
      ValueLeTotal(Get(a, keys[0]), Get(b, keys[0]));
      KeysLeTotal(a, b, keys[1..]);
    }
  }

  lemma {:induction false} KeysLeTrans(a: Doc, b: Doc, c: Doc, keys: seq<string>)
    requires KeysLe(a, b, keys) && KeysLe(b, c, keys)
    ensures KeysLe(a, c, keys)
    decreases |keys|
  {
    if keys != [] {
      var x, y, z := Get(a, keys[0]), Get(b, keys[0]), Get(c, keys[0]);
      var xy, yx, yz, zy := ValueLe(x, y), ValueLe(y, x), ValueLe(y, z), ValueLe(z, y);
      ValueLeTotal(x, y);
      ValueLeTotal(y, z);
      if xy && yz { ValueLeTrans(x, y, z); }
      if zy && yx { ValueLeTrans(z, y, x); }
      if ValueLe(z, x) && xy { ValueLeTrans(z, x, y); }
      if yz && ValueLe(z, x) { ValueLeTrans(y, z, x); }
      if xy && yx && yz && zy {
        KeysLeTrans(a, b, c, keys[1..]);
      }
    }
  }

  function SortKeys(keys: seq<string>): (Doc, Doc) -> bool
  {
    (a: Doc, b: Doc) => KeysLe(a, b, keys)
  }

  /** Every key list gives a valid sort order. */
  lemma SortKeysPreorder(keys: seq<string>)
    ensures Sorting.TotalPreorder(SortKeys(keys))
  {
    forall a: Doc, b: Doc ensures KeysLe(a, b, keys) || KeysLe(b, a, keys) {
      KeysLeTotal(a, b, keys);
    }
    forall a: Doc, b: Doc, c: Doc | KeysLe(a, b, keys) && KeysLe(b, c, keys) ensures KeysLe(a, c, keys) {
      KeysLeTrans(a, b, c, keys);
    }
  }

  /** `.sort([(key, -1), ...])`: the key order reversed, so the largest keys come first. */
  function DescendingKeys(keys: seq<string>): (Doc, Doc) -> bool
  {
    (a: Doc, b: Doc) => KeysLe(b, a, keys)
  }

  /** A reversed key order is a valid sort order too. */
  lemma DescendingKeysPreorder(keys: seq<string>)
    ensures Sorting.TotalPreorder(DescendingKeys(keys))
  {
    forall a: Doc, b: Doc ensures KeysLe(b, a, keys) || KeysLe(a, b, keys) {
      KeysLeTotal(a, b, keys);
    }
    forall a: Doc, b: Doc, c: Doc | KeysLe(b, a, keys) && KeysLe(c, b, keys) ensures KeysLe(c, a, keys) {
      KeysLeTrans(c, b, a, keys);
    }
  }

  /** `find(filter).sort(keys)`: the matching documents in key order. */
  function FindSorted(docs: seq<Doc>, filter: Doc -> bool, keys: seq<string>): seq<Doc>
  {
    Sorting.SortBy(Sorting.Filter(docs, filter), SortKeys(keys))
  }

  /** The sorted find returns exactly the matching documents, each as often as stored, in key order. */
  lemma FindSortedSpec(docs: seq<Doc>, filter: Doc -> bool, keys: seq<string>)
    ensures Sorting.SortedBy(FindSorted(docs, filter, keys), SortKeys(keys))
    ensures multiset(FindSorted(docs, filter, keys)) == multiset(Sorting.Filter(docs, filter))
    ensures forall d :: d in FindSorted(docs, filter, keys) <==> d in docs && filter(d)
  {
    SortKeysPreorder(keys);
    Sorting.SortBySorted(Sorting.Filter(docs, filter), SortKeys(keys));
    var r := FindSorted(docs, filter, keys);
    var m := Sorting.Filter(docs, filter);
    forall d ensures d in r <==> d in docs && filter(d) {
      assert d in r <==> d in multiset(r);
      assert d in m <==> d in multiset(m);
      if d in docs && filter(d) {
        var j :| 0 <= j < |docs| && docs[j] == d;
      }
    }
  }

  // ---------------------------------------------------------------------
  // Collections and counters
  // ---------------------------------------------------------------------

  /** One collection of the database, as the handlers call it. */
  class Collection {
    var docs: seq<Doc>

    constructor (docs: seq<Doc>)
      ensures this.docs == docs
    {
      this.docs := docs;
    }

    method InsertOne(d: Doc)
      modifies this
      ensures docs == old(docs) + [d]
    {
      docs := docs + [d];
    }

    /** find_one_and_update with `$set`, returning the document after the update, or None. */
    method FindOneAndSet(filter: Doc -> bool, update: Doc) returns (r: Option<Doc>)
      modifies this
      ensures FirstMatch(old(docs), filter).None? ==> r.None? && docs == old(docs)
      ensures FirstMatch(old(docs), filter).Some? ==>
        docs == old(docs)[FirstMatch(old(docs), filter).value :=
                          SetFields(old(docs)[FirstMatch(old(docs), filter).value], update)] &&
        r == Some(docs[FirstMatch(old(docs), filter).value])
    {
      var m := FirstMatch(docs, filter);
      if m.Some? {
        var updated := SetFields(docs[m.value], update);
        docs := docs[m.value := updated];
        r := Some(updated);
      } else {
        r := None;
      }
    }

    /** update_one with `$set`; the result says whether a document matched. */
    method UpdateOneSet(filter: Doc -> bool, update: Doc) returns (matched: bool)
      modifies this
      ensures matched <==> FirstMatch(old(docs), filter).Some?
      ensures !matched ==> docs == old(docs)
      ensures matched ==>
        docs == old(docs)[FirstMatch(old(docs), filter).value :=
                          SetFields(old(docs)[FirstMatch(old(docs), filter).value], update)]
    {
      var r := FindOneAndSet(filter, update);
      matched := r.Some?;
    }

    /** update_one with `$set` and upsert: without a match the filter's field and the update are inserted. */
    method UpsertOneSet(key: string, v: Value, update: Doc)
      modifies this
      ensures FirstMatch(old(docs), FieldEquals(key, v)).Some? ==>
        docs == old(docs)[FirstMatch(old(docs), FieldEquals(key, v)).value :=
                          SetFields(old(docs)[FirstMatch(old(docs), FieldEquals(key, v)).value], update)]
      ensures FirstMatch(old(docs), FieldEquals(key, v)).None? ==>
        docs == old(docs) + [SetFields(map[key := v], update)]
    {
      var matched := UpdateOneSet(FieldEquals(key, v), update);
      if !matched {
        docs := docs + [SetFields(map[key := v], update)];
      }
    }

    /** update_many with `$set` on the raw collection: every match gets the fields, the rest stay. */
    method UpdateManySet(filter: Doc -> bool, update: Doc)
      modifies this
      ensures |docs| == |old(docs)|
      ensures forall i :: 0 <= i < |docs| ==>
        docs[i] == if filter(old(docs)[i]) then SetFields(old(docs)[i], update) else old(docs)[i]
    {
      var i := 0;
      var out: seq<Doc> := [];
      while i < |docs|
        invariant 0 <= i <= |docs| && |out| == i
        invariant forall j :: 0 <= j < i ==> out[j] == if filter(docs[j]) then SetFields(docs[j], update) else docs[j]
      {
        out := out + [if filter(docs[i]) then SetFields(docs[i], update) else docs[i]];
        i := i + 1;
      }
      docs := out;
    }

    /** delete_one: removes the first match; the result says whether one was removed. */
    method DeleteOne(filter: Doc -> bool) returns (deleted: bool)
      modifies this
      ensures deleted <==> FirstMatch(old(docs), filter).Some?
      ensures deleted ==> docs == RemoveAt(old(docs), FirstMatch(old(docs), filter).value)
      ensures !deleted ==> docs == old(docs)
    {
      var m := FirstMatch(docs, filter);
      if m.Some? {
        docs := RemoveAt(docs, m.value);
        deleted := true;
      } else {
        deleted := false;
      }
    }
  }

  /** The stored value of a counter; a counter never used reads as 0 (the upsert creates it). */
  function CounterValue(counters: map<string, nat>, name: string): nat
  {
    if name in counters then counters[name] else 0
  }

  /** No stored document carries an integer `field` above n: the state in which counter value n is safe to advance. */
  predicate NoIdAbove(docs: seq<Doc>, field: string, n: int)
  {
    forall j :: 0 <= j < |docs| ==> !(Get(docs[j], field).Int? && Get(docs[j], field).i > n)
  }

  /**
   * While no stored ID exceeds its counter, the next counter value is an ID
   * no stored document has, and inserting it keeps the property.
   */
  lemma NextIdFresh(docs: seq<Doc>, field: string, n: int, d: Doc)
    requires NoIdAbove(docs, field, n)
    requires Get(d, field) == Int(n + 1)
    ensures forall j :: 0 <= j < |docs| ==> Get(docs[j], field) != Int(n + 1)
    ensures NoIdAbove(docs + [d], field, n + 1)
  {
  }

  /** The counters collection: get_next_sequence is an upsert with `$inc` of 1 returning the new value. */
  class Counters {
    var values: map<string, nat>

    constructor (values: map<string, nat>)
      ensures this.values == values
    {
      this.values := values;
    }

    method Next(name: string) returns (v: nat)
      modifies this
      ensures v == CounterValue(old(values), name) + 1
      ensures values == old(values)[name := v]
    {
      v := CounterValue(values, name) + 1;
      values := values[name := v];
    }
  }
}
