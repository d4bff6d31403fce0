/**
 * The generic repository every backend2 repository builds on: a collection
 * of documents plus the shared counters collection that hands out
 * auto-increment IDs, with create / update / delete / find_many.
 */
module BaseRepo {
  import opened Wrappers
  import opened Text
  import opened Documents
  import Sorting
  import Calendar

  /** find_many's default page size. */
  const DefaultLimit: nat := 100

  const CreatedAt: string := "created_at"
  const UpdatedAt: string := "updated_at"

  /** `sequence_name or self.collection_name`: an absent or empty name falls back to the collection's. */
  function SequenceName(requested: Option<string>, collection: string): (n: string)
    ensures requested.Some? && requested.value != "" ==> n == requested.value
    ensures requested.None? || requested.value == "" ==> n == collection
  {
    if requested.Some? && requested.value != "" then requested.value else collection
  }

  /** The counters after get_next_sequence has been called once for each name in order. */
  function AfterCalls(counters: map<string, nat>, names: seq<string>): map<string, nat>
    decreases |names|
  {
    if names == [] then counters
    else AfterCalls(counters[names[0] := CounterValue(counters, names[0]) + 1], names[1..])
  }

  function Occurrences(names: seq<string>, name: string): nat
  {
    if names == [] then 0
    else (if names[0] == name then 1 else 0) + Occurrences(names[1..], name)
  }

  /**
   * Each call adds exactly one to its own counter and leaves the others alone,
   * so from an empty counters collection a sequence counts 1, 2, 3, ...
   */
  lemma {:induction false} CountersCountCalls(counters: map<string, nat>, names: seq<string>, name: string)
    ensures CounterValue(AfterCalls(counters, names), name) == CounterValue(counters, name) + Occurrences(names, name)
    decreases |names|
  {
    if names != [] {
      CountersCountCalls(counters[names[0] := CounterValue(counters, names[0]) + 1], names[1..], name);
    }
  }

  /** `collection_name.upper()[:3]`. */
  function IdPrefix(collection: string): (p: string)
    ensures |p| == if |collection| < 3 then |collection| else 3
  {
    var u := Upper(collection);
    if |u| <= 3 then u else u[..3]
  }

  /** A name of three or more letters gives the upper-case forms of its first three. */
  lemma IdPrefixOfLong(collection: string)
    requires |collection| >= 3
    ensures IdPrefix(collection) ==
      [ToUpperChar(collection[0]), ToUpperChar(collection[1]), ToUpperChar(collection[2])]
  {
  }

  /** The generated ID: upper-cased three-letter prefix and the counter padded to at least three digits. */
  function AutoId(collection: string, next: nat): (id: string)
    ensures |id| >= |IdPrefix(collection)| + 3
    ensures id[..|IdPrefix(collection)|] == IdPrefix(collection)
  {
    AutoIdFrom(IdPrefix(collection), next)
  }

  /** An ID under a known prefix: the prefix and the counter padded to at least three digits. */
  function AutoIdFrom(prefix: string, next: nat): string
  {
    prefix + ZeroFill(NatToString(next), 3)
  }

  /** Different counter values never give the same ID in one collection. */
  lemma AutoIdInjective(collection: string, n: nat, m: nat)
    requires AutoId(collection, n) == AutoId(collection, m)
    ensures n == m
  {
    var p := IdPrefix(collection);
    assert AutoId(collection, n)[|p|..] == ZeroFill(NatToString(n), 3);
    assert AutoId(collection, m)[|p|..] == ZeroFill(NatToString(m), 3);
    ZeroFillNatInjective(n, m, 3);
  }

  /** `auto_id_field and auto_id_field not in document`. */
  predicate NeedsAutoId(document: Doc, autoIdField: Option<string>)
  {
    autoIdField.Some? && autoIdField.value != "" && autoIdField.value !in document
  }

  /** created_at and updated_at are kept when supplied and set to now otherwise. */
  function Timestamped(document: Doc, now: int): (r: Doc)
    ensures r.Keys == document.Keys + {CreatedAt, UpdatedAt}
    ensures r[CreatedAt] == if CreatedAt in document then document[CreatedAt] else Stamp(now)
    ensures r[UpdatedAt] == if UpdatedAt in document then document[UpdatedAt] else Stamp(now)
    ensures forall k :: k in document ==> r[k] == document[k]
  {
    var withCreated := document[CreatedAt := if CreatedAt in document then document[CreatedAt] else Stamp(now)];
    withCreated[UpdatedAt := if UpdatedAt in document then document[UpdatedAt] else Stamp(now)]
  }

  /**
   * What create stores: with an auto ID the collection's counter advances by
   * one and the new ID is written, otherwise the counters stay; either way
   * the document gets its timestamps.
   */
  predicate CreatedAs(before: map<string, nat>, after: map<string, nat>, name: string,
                      document: Doc, autoIdField: Option<string>, created: Doc, now: int)
  {
    (NeedsAutoId(document, autoIdField) ==>
       after == before[name := CounterValue(before, name) + 1] &&
       created == Timestamped(document[autoIdField.value := Str(AutoId(name, CounterValue(before, name) + 1))], now)) &&
    (!NeedsAutoId(document, autoIdField) ==>
       after == before && created == Timestamped(document, now))
  }

  /** A date-only value as stored and compared: the time stamp of its midnight. */
  function DayStamp(day: int): Value
  {
    Stamp(day * Calendar.MinutesPerDay)
  }

  /** DayStamp keeps the order of days. */
  lemma DayStampOrder(a: int, b: int)
    ensures DayStamp(a).t <= DayStamp(b).t <==> a <= b
  {
    if a <= b {
      assert DayStamp(b).t - DayStamp(a).t == (b - a) * Calendar.MinutesPerDay;
    } else {
      assert DayStamp(a).t - DayStamp(b).t == (a - b) * Calendar.MinutesPerDay;
    }
  }

  /** `f"{prefix}{year}-{str(count + 1).zfill(4)}"`: a yearly serial number. */
  function SerialNumber(prefix: string, year: nat, count: nat): (n: string)
    ensures |n| > |prefix| + |NatToString(year)|
    ensures n[..|prefix|] == prefix
    ensures n[|prefix| + |NatToString(year)|] == '-'
  {
    prefix + NatToString(year) + ['-'] + ZeroFill(NatToString(count + 1), 4)
  }

  /** Within one prefix and year, different counts give different numbers. */
  lemma SerialNumberInjective(prefix: string, year: nat, a: nat, b: nat)
    requires SerialNumber(prefix, year, a) == SerialNumber(prefix, year, b)
    ensures a == b
  {
    SerialNumberReadsBack(prefix, year, a);
    SerialNumberReadsBack(prefix, year, b);
  }

  /** The serial part reads back as count + 1, in at least four digits. */
  lemma SerialNumberReadsBack(prefix: string, year: nat, count: nat)
    ensures var n := SerialNumber(prefix, year, count);
      var p := |prefix| + |NatToString(year)| + 1;
      |n| >= p + 4 && AllDigits(n[p..]) && ParseNat(n[p..]) == count + 1
  {
    var head := prefix + NatToString(year) + ['-'];
    TailAfter(head, ZeroFill(NatToString(count + 1), 4));
    ParseZeroFill(count + 1, 4);
  }

  /** A `$set` of update, to which the repository always adds updated_at = now. */
  function ApplySet(document: Doc, update: Doc, now: int): (r: Doc)
    ensures r.Keys == document.Keys + update.Keys + {UpdatedAt}
    ensures r[UpdatedAt] == Stamp(now)
    ensures forall k :: k in update && k != UpdatedAt ==> r[k] == update[k]
    ensures forall k :: k in document && k !in update && k != UpdatedAt ==> r[k] == document[k]
  {
    document + update[UpdatedAt := Stamp(now)]
  }

  /**
   * The state update_by_id leaves: without a document carrying the ID
   * nothing changes and the result is None; otherwise the first such
   * document gets the `$set` and is returned.
   */
  predicate UpdatedById(before: seq<Doc>, after: seq<Doc>, id: Value, idField: string, update: Doc, now: int,
                        r: Option<Doc>)
  {
    var m := FirstMatch(before, FieldEquals(idField, id));
    (m.None? ==> r.None? && after == before) &&
    (m.Some? ==> after == before[m.value := ApplySet(before[m.value], update, now)] && r == Some(after[m.value]))
  }

  /**
   * find_many: filter, optional sort, then skip and limit. A negative skip
   * makes the driver raise, which find_many turns into an empty list.
   */
  function FindMany(docs: seq<Doc>, filter: Doc -> bool, skip: int, limit: nat,
                    sort: Option<(Doc, Doc) -> bool>): (r: seq<Doc>)
    requires limit > 0
    ensures |r| <= limit
    ensures forall i :: 0 <= i < |r| ==> r[i] in docs && filter(r[i])
    ensures skip < 0 ==> r == []
    ensures skip == 0 && sort.None? && |Sorting.Filter(docs, filter)| <= limit ==> r == Sorting.Filter(docs, filter)
  {
    if skip < 0 then []
    else
      var matched := Sorting.Filter(docs, filter);
      var ordered := if sort.Some? then Sorting.SortBy(matched, sort.value) else matched;
      assert forall x :: x in ordered ==> x in matched by {
        forall x | x in ordered ensures x in matched {
          assert x in multiset(ordered);
        }
      }
      Window(ordered, skip, limit)
  }

  /** `.skip(skip).limit(limit)`: at most `limit` elements, taken in order from position `skip` on. */
  function Window<T>(s: seq<T>, skip: nat, limit: nat): (r: seq<T>)
    ensures |r| <= limit
    ensures forall i :: 0 <= i < |r| ==> r[i] in s
    ensures skip == 0 && |s| <= limit ==> r == s
    ensures forall i :: 0 <= i < |r| ==> skip + i < |s| && r[i] == s[skip + i]
  {
    var rest := if skip <= |s| then s[skip..] else [];
    if |rest| <= limit then rest else rest[..limit]
  }

  /** With a valid sort order, the page find_many returns is in that order. */
  lemma FindManySorted(docs: seq<Doc>, filter: Doc -> bool, skip: int, limit: nat, leq: (Doc, Doc) -> bool)
    requires limit > 0 && Sorting.TotalPreorder(leq)
    ensures Sorting.SortedBy(FindMany(docs, filter, skip, limit, Some(leq)), leq)
  {
    if skip >= 0 {
      var ordered := Sorting.SortBy(Sorting.Filter(docs, filter), leq);
      Sorting.SortBySorted(Sorting.Filter(docs, filter), leq);
      var rest := if skip <= |ordered| then ordered[skip..] else [];
      assert Sorting.SortedBy(rest, leq) by {
        if skip <= |ordered| {
          forall i, j | 0 <= i < j < |rest| ensures leq(rest[i], rest[j]) {
            assert rest[i] == ordered[skip + i] && rest[j] == ordered[skip + j];
          }
        }
      }
    }
  }

  /**
   * A sorted find_many from the start is the first page of the sorted
   * matches: holding only matches, in order, all of them when they fit,
   * and every match it leaves out sorts at or after every one it holds.
   */
  ghost predicate SortedPage(r: seq<Doc>, docs: seq<Doc>, filter: Doc -> bool, limit: nat, leq: (Doc, Doc) -> bool)
  {
    var matched := Sorting.Filter(docs, filter);
    Sorting.SortedBy(r, leq) && multiset(r) <= multiset(matched) &&
    (|matched| <= limit ==> multiset(r) == multiset(matched)) &&
    forall x, i :: x in multiset(matched) - multiset(r) && 0 <= i < |r| ==> leq(r[i], x)
  }

  lemma FindManySortedSpec(docs: seq<Doc>, filter: Doc -> bool, limit: nat, leq: (Doc, Doc) -> bool)
    requires limit > 0 && Sorting.TotalPreorder(leq)
    ensures SortedPage(FindMany(docs, filter, 0, limit, Some(leq)), docs, filter, limit, leq)
  {
    var matched := Sorting.Filter(docs, filter);
    var sorted := Sorting.SortBy(matched, leq);
    assert FindMany(docs, filter, 0, limit, Some(leq)) == Take(sorted, limit) by {
      assert sorted[0..] == sorted;
    }
    TakeSortedSpec(matched, leq, limit);
  }

  /** The first `limit` elements (find_many's `.limit(...)` on a typed result). */
  function Take<T>(s: seq<T>, limit: nat): (r: seq<T>)
    ensures |r| == if |s| <= limit then |s| else limit
    ensures r == s[..|r|]
  {
    if |s| <= limit then s else s[..limit]
  }

  /**
   * A page of a sorted result holds the earliest elements: it is sorted,
   * it is all of them when they fit, and every element it leaves out sorts
   * at or after every element it holds.
   */
  lemma TakeSortedSpec<T(!new)>(s: seq<T>, leq: (T, T) -> bool, limit: nat)
    requires Sorting.TotalPreorder(leq)
    ensures var r := Take(Sorting.SortBy(s, leq), limit);
      Sorting.SortedBy(r, leq) && multiset(r) <= multiset(s) &&
      (|s| <= limit ==> multiset(r) == multiset(s)) &&
      forall x, i :: x in multiset(s) - multiset(r) && 0 <= i < |r| ==> leq(r[i], x)
  {
    var sorted := Sorting.SortBy(s, leq);
    Sorting.SortBySorted(s, leq);
    PrefixOfSorted(sorted, |Take(sorted, limit)|, leq);
  }

  /** A prefix of a sorted sequence is sorted, and everything after it sorts at or after all it holds. */
  lemma PrefixOfSorted<T>(sorted: seq<T>, n: nat, leq: (T, T) -> bool)
    requires n <= |sorted| && Sorting.SortedBy(sorted, leq)
    ensures var r := sorted[..n];
      Sorting.SortedBy(r, leq) && multiset(r) <= multiset(sorted) &&
      forall x, i :: x in multiset(sorted) - multiset(r) && 0 <= i < |r| ==> leq(r[i], x)
  {
    var r, rest := sorted[..n], sorted[n..];
    assert sorted == r + rest;
    assert multiset(sorted) == multiset(r) + multiset(rest);
    forall x, i | x in multiset(sorted) - multiset(r) && 0 <= i < |r| ensures leq(r[i], x) {
      assert x in multiset(rest);
      var j :| 0 <= j < |rest| && rest[j] == x;
      assert sorted[i] == r[i] && sorted[n + j] == x;
    }
  }

  /** count: the number of documents the filter matches. */
  function Count(docs: seq<Doc>, filter: Doc -> bool): nat
  {
    |Sorting.Filter(docs, filter)|
  }

  class Repository {
    const name: string
    var docs: seq<Doc>
    var counters: map<string, nat>

    constructor (name: string, counters: map<string, nat>)
      ensures this.name == name && docs == [] && this.counters == counters
    {
      this.name := name;
      docs := [];
      this.counters := counters;
    }

    /** The upsert-and-$inc on the counters collection; returns the new value. */
    method GetNextSequence(sequenceName: Option<string>) returns (v: nat)
      modifies this`counters
      ensures v == CounterValue(old(counters), SequenceName(sequenceName, name)) + 1
      ensures counters == old(counters)[SequenceName(sequenceName, name) := v]
    {
      var n := SequenceName(sequenceName, name);
      v := CounterValue(counters, n) + 1;
      counters := counters[n := v];
    }

    /** create: an auto ID only when the field is asked for and absent, then timestamps, then insert. */
    method Create(document: Doc, autoIdField: Option<string>, now: int) returns (created: Doc)
      modifies this
      ensures NeedsAutoId(document, autoIdField) ==>
        counters == old(counters)[name := CounterValue(old(counters), name) + 1] &&
        created == Timestamped(document[autoIdField.value := Str(AutoId(name, counters[name]))], now)
      ensures !NeedsAutoId(document, autoIdField) ==>
        counters == old(counters) && created == Timestamped(document, now)
      ensures docs == old(docs) + [created]
    {
      var d := document;
      if NeedsAutoId(document, autoIdField) {
        var next := GetNextSequence(None);
        d := d[autoIdField.value := Str(AutoId(name, next))];
      }
      created := Timestamped(d, now);
      docs := docs + [created];
    }

    /** update_one: `$set` on the first match, returning the updated document or None. */
    method UpdateOne(filter: Doc -> bool, update: Doc, now: int) returns (r: Option<Doc>)
      modifies this`docs
      ensures FirstMatch(old(docs), filter).None? ==> r.None? && docs == old(docs)
      ensures FirstMatch(old(docs), filter).Some? ==>
        var i := FirstMatch(old(docs), filter).value;
        docs == old(docs)[i := ApplySet(old(docs)[i], update, now)] && r == Some(docs[i])
    {
      var m := FirstMatch(docs, filter);
      if m.Some? {
        var updated := ApplySet(docs[m.value], update, now);
        docs := docs[m.value := updated];
        r := Some(updated);
      } else {
        r := None;
      }
    }

    /** update_by_id with a named ID field. */
    method UpdateById(id: Value, idField: string, update: Doc, now: int) returns (r: Option<Doc>)
      modifies this`docs
      ensures FirstMatch(old(docs), FieldEquals(idField, id)).None? ==> r.None? && docs == old(docs)
      ensures FirstMatch(old(docs), FieldEquals(idField, id)).Some? ==>
        var i := FirstMatch(old(docs), FieldEquals(idField, id)).value;
        docs == old(docs)[i := ApplySet(old(docs)[i], update, now)] && r == Some(docs[i])
    {
      r := UpdateOne(FieldEquals(idField, id), update, now);
    }

    /** update_many: `$set` on every match; the count is of documents the write actually changed. */
    method UpdateMany(filter: Doc -> bool, update: Doc, now: int) returns (modified: nat)
      modifies this`docs
      ensures |docs| == |old(docs)|
      ensures forall i :: 0 <= i < |docs| ==>
        docs[i] == if filter(old(docs)[i]) then ApplySet(old(docs)[i], update, now) else old(docs)[i]
      ensures modified == ChangedCount(old(docs), filter, update, now)
    {
      var i := 0;
      var out: seq<Doc> := [];
      modified := 0;
      while i < |docs|
        invariant 0 <= i <= |docs| && |out| == i
        invariant forall j :: 0 <= j < i ==>
          out[j] == if filter(docs[j]) then ApplySet(docs[j], update, now) else docs[j]
        invariant modified + ChangedCount(docs[i..], filter, update, now) == ChangedCount(docs, filter, update, now)
      {
        assert docs[i..] == [docs[i]] + docs[i + 1..];
        if filter(docs[i]) {
          var d := ApplySet(docs[i], update, now);
          if d != docs[i] { modified := modified + 1; }
          out := out + [d];
        } else {
          out := out + [docs[i]];
        }
        i := i + 1;
      }
      docs := out;
    }

    /** delete_one: removes the first match and reports whether one was removed. */
    method DeleteOne(filter: Doc -> bool) returns (deleted: bool)
      modifies this`docs
      ensures deleted <==> FirstMatch(old(docs), filter).Some?
      ensures deleted ==> docs == RemoveAt(old(docs), FirstMatch(old(docs), filter).value)
      ensures !deleted ==> docs == old(docs)
    {
      var m := FirstMatch(docs, filter);
      if m.Some? {
        docs := RemoveAt(docs, m.value);
        deleted := true;
      } else {
        deleted := false;
      }
    }
  }

  /** How many matching documents a `$set` would actually change. */
  function ChangedCount(docs: seq<Doc>, filter: Doc -> bool, update: Doc, now: int): nat
  {
    if docs == [] then 0
    else (if filter(docs[0]) && ApplySet(docs[0], update, now) != docs[0] then 1 else 0)
         + ChangedCount(docs[1..], filter, update, now)
  }
}
