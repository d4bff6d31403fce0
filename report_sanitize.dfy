/**
 * _sanitize_for_json of the report service: a document-store value is
 * turned into a JSON value. Object ids and references become their text,
 * decimals become numbers, dates their ISO text, tuples and sets become
 * lists, and every "_id" key is dropped from every mapping, at any depth.
 */
module ReportSanitize {
  import opened Calendar
  import opened Text
  import DateText
  import Sorting

  const IdKey: string := "_id"

  /** A value as read from the store; a mapping keeps its keys in order. */
  datatype Bson =
    | Null
    | Bool(b: bool)
    | Int(i: int)
    | Number(n: int)
    | Str(s: string)
    | ObjectId(hex: string)
    | Ref(text: string)
    | Decimal(d: int)
    | Day(date: Date)
    | DateTime(date: Date, hour: int, minute: int, second: int, micro: int)
    | Dict(entries: seq<Entry>)
    | List(items: seq<Bson>)
    | Tuple(items: seq<Bson>)
    | Set(items: seq<Bson>)

  datatype Entry = Entry(key: string, value: Bson)

  /** A value JSON can carry: plain scalars, lists and mappings, with no "_id" key anywhere. */
  predicate IsJson(x: Bson)
  {
    match x
    case Null => true
    case Bool(_) => true
    case Int(_) => true
    case Number(_) => true
    case Str(_) => true
    case List(xs) => forall i :: 0 <= i < |xs| ==> IsJson(xs[i])
    case Dict(es) => forall i :: 0 <= i < |es| ==> es[i].key != IdKey && IsJson(es[i].value)
    case _ => false
  }

  predicate KeptKey(e: Entry)
  {
    e.key != IdKey
  }

  function ValidDay(d: Date): bool
  {
    1 <= d.year && 1 <= d.month && 1 <= d.day
  }

  predicate ValidClock(hour: int, minute: int, second: int, micro: int)
  {
    0 <= hour < 24 && 0 <= minute < 60 && 0 <= second < 60 && 0 <= micro < 1000000
  }

  /** `datetime.isoformat()`: the date, 'T', HH:MM:SS, and the microseconds only when there are some. */
  function ClockText(hour: int, minute: int, second: int, micro: int): string
    requires ValidClock(hour, minute, second, micro)
  {
    [TimeSeparator] + Digits(hour, 2) + [':'] + Digits(minute, 2) + [':'] + Digits(second, 2) +
    (if micro == 0 then "" else ['.'] + Digits(micro, 6))
  }

  /** A number written with exactly `width` digits, zero-filled. */
  function Digits(n: nat, width: nat): (r: string)
    requires width == 2 || width == 6
    requires n < if width == 2 then 100 else 1000000
    ensures |r| == width
  {
    assert DateText.Pow10(2) == 100 && DateText.Pow10(6) == 1000000;
    DateText.NatToStringLength(n, width);
    ZeroFill(NatToString(n), width)
  }

  const TimeSeparator: char := 'T'

  /**
   * _sanitize_for_json. A decimal's float has the same value (its rounding
   * is not modelled); a date or a date-time is `isoformat()`, and the
   * Null branches are for field values no Python date or time can have.
   */
  function Sanitize(x: Bson): (r: Bson)
  {
    match x
    case ObjectId(hex) => Str(hex)
    case Ref(text) => Str(text)
    case Decimal(d) => Number(d)
    case Day(date) => if ValidDay(date) then Str(DateText.FormatYmd(date)) else Null
    case DateTime(date, h, m, sec, us) =>
      if ValidDay(date) && ValidClock(h, m, sec, us) then Str(DateText.FormatYmd(date) + ClockText(h, m, sec, us))
      else Null
    case Dict(es) =>
      Dict(Sorting.Filter(seq(|es|, i requires 0 <= i < |es| => Entry(es[i].key, Sanitize(es[i].value))), KeptKey))
    case List(xs) => List(seq(|xs|, i requires 0 <= i < |xs| => Sanitize(xs[i])))
    case Tuple(xs) => List(seq(|xs|, i requires 0 <= i < |xs| => Sanitize(xs[i])))
    case Set(xs) => List(seq(|xs|, i requires 0 <= i < |xs| => Sanitize(xs[i])))
    case _ => x
  }

  /** Every sanitized value is JSON: no store types, no tuples or sets, and no "_id" at any level. */
  lemma {:induction false} SanitizeIsJson(x: Bson)
    ensures IsJson(Sanitize(x))
  {
    match x
    case Dict(es) =>
      var mapped := seq(|es|, i requires 0 <= i < |es| => Entry(es[i].key, Sanitize(es[i].value)));
      var kept := Sorting.Filter(mapped, KeptKey);
      forall i | 0 <= i < |es| ensures IsJson(mapped[i].value) {
        SanitizeIsJson(es[i].value);
      }
      forall i | 0 <= i < |kept| ensures kept[i].key != IdKey && IsJson(kept[i].value) {
        var j :| 0 <= j < |mapped| && mapped[j] == kept[i];
      }
    case List(xs) =>
      forall i | 0 <= i < |xs| ensures IsJson(Sanitize(xs[i])) { SanitizeIsJson(xs[i]); }
    case Tuple(xs) =>
      forall i | 0 <= i < |xs| ensures IsJson(Sanitize(xs[i])) { SanitizeIsJson(xs[i]); }
    case Set(xs) =>
      forall i | 0 <= i < |xs| ensures IsJson(Sanitize(xs[i])) { SanitizeIsJson(xs[i]); }
    case _ =>
  }

  lemma {:induction false} FilterKeepsAll<T>(s: seq<T>, p: T -> bool)
    requires forall i :: 0 <= i < |s| ==> p(s[i])
    ensures Sorting.Filter(s, p) == s
  {
    if s != [] {
      FilterKeepsAll(s[1..], p);
    }
  }

  /** A value that already is JSON comes back unchanged. */
  lemma {:induction false} SanitizeKeepsJson(x: Bson)
    requires IsJson(x)
    ensures Sanitize(x) == x
  {
    match x
    case Dict(es) =>
      var mapped := seq(|es|, i requires 0 <= i < |es| => Entry(es[i].key, Sanitize(es[i].value)));
      forall i | 0 <= i < |es| ensures mapped[i] == es[i] {
        SanitizeKeepsJson(es[i].value);
      }
      assert mapped == es;
      FilterKeepsAll(es, KeptKey);
    case List(xs) =>
      forall i | 0 <= i < |xs| ensures Sanitize(xs[i]) == xs[i] { SanitizeKeepsJson(xs[i]); }
      assert seq(|xs|, i requires 0 <= i < |xs| => Sanitize(xs[i])) == xs;
    case _ =>
  }

  /** Sanitizing twice is sanitizing once. */
  lemma SanitizeIdempotent(x: Bson)
    ensures Sanitize(Sanitize(x)) == Sanitize(x)
  {
    SanitizeIsJson(x);
    SanitizeKeepsJson(Sanitize(x));
  }

  /**
   * A mapping keeps exactly its other keys, in order, each with its value
   * sanitized; a list, tuple or set keeps its length and order.
   */
  lemma SanitizeShape(x: Bson)
    ensures x.Dict? ==> (Sanitize(x).Dict? &&
      (forall e :: e in Sanitize(x).entries ==> e.key != IdKey) &&
      (forall i :: 0 <= i < |x.entries| && x.entries[i].key != IdKey ==>
         Entry(x.entries[i].key, Sanitize(x.entries[i].value)) in Sanitize(x).entries))
    ensures (x.List? || x.Tuple? || x.Set?) ==> (Sanitize(x).List? &&
      |Sanitize(x).items| == |x.items| &&
      forall i :: 0 <= i < |x.items| ==> Sanitize(x).items[i] == Sanitize(x.items[i]))
  {
    if x.Dict? {
      var es := x.entries;
      var mapped := seq(|es|, i requires 0 <= i < |es| => Entry(es[i].key, Sanitize(es[i].value)));
      forall i | 0 <= i < |es| && es[i].key != IdKey ensures mapped[i] in Sanitize(x).entries {
        assert KeptKey(mapped[i]);
      }
    }
  }

  /**
   * A date-time's text is its date's text followed by 'T' and the time of
   * day: eight more characters on the whole second, fifteen otherwise.
   */
  lemma DateTimeExtendsDay(d: Date, h: int, m: int, sec: int, us: int)
    requires ValidDay(d) && ValidClock(h, m, sec, us)
    ensures var day := Sanitize(Day(d)); var t := Sanitize(DateTime(d, h, m, sec, us));
      day.Str? && t.Str? && |t.s| == |day.s| + (if us == 0 then 9 else 16) &&
      day.s <= t.s && t.s[|day.s|] == TimeSeparator
  {
    SanitizeTimes(d, h, m, sec, us);
    ClockTextShape(h, m, sec, us);
  }

  lemma SanitizeTimes(d: Date, h: int, m: int, sec: int, us: int)
    requires ValidDay(d) && ValidClock(h, m, sec, us)
    ensures Sanitize(Day(d)) == Str(DateText.FormatYmd(d))
    ensures Sanitize(DateTime(d, h, m, sec, us)) == Str(DateText.FormatYmd(d) + ClockText(h, m, sec, us))
  {
  }

  lemma ClockTextShape(h: int, m: int, sec: int, us: int)
    requires ValidClock(h, m, sec, us)
    ensures |ClockText(h, m, sec, us)| == if us == 0 then 9 else 16
    ensures ClockText(h, m, sec, us)[0] == TimeSeparator
  {
  }

  const NameKey: string := "name"

  /** An "_id" nested inside a list is dropped too. */
  lemma NestedIdDropped()
    ensures Sanitize(List([Dict([Entry(IdKey, ObjectId(IdKey)), Entry(NameKey, Int(1))])])) ==
            List([Dict([Entry(NameKey, Int(1))])])
  {
    var outer := [Dict([Entry(IdKey, ObjectId(IdKey)), Entry(NameKey, Int(1))])];
    DictIdDropped();
    assert seq(|outer|, i requires 0 <= i < |outer| => Sanitize(outer[i])) == [Dict([Entry(NameKey, Int(1))])];
  }

  /** The "_id" entry of a mapping is dropped and the other entry kept with its value. */
  lemma DictIdDropped()
    ensures Sanitize(Dict([Entry(IdKey, ObjectId(IdKey)), Entry(NameKey, Int(1))])) == Dict([Entry(NameKey, Int(1))])
  {
    var inner := [Entry(IdKey, ObjectId(IdKey)), Entry(NameKey, Int(1))];
    var mapped := seq(|inner|, i requires 0 <= i < |inner| => Entry(inner[i].key, Sanitize(inner[i].value)));
    assert mapped == [Entry(IdKey, Str(IdKey)), Entry(NameKey, Int(1))];
    assert NameKey != IdKey by { assert NameKey[0] != IdKey[0]; }
    FilterDropsFirst(Entry(IdKey, Str(IdKey)), Entry(NameKey, Int(1)));
  }

  lemma FilterDropsFirst(a: Entry, b: Entry)
    requires !KeptKey(a) && KeptKey(b)
    ensures Sorting.Filter([a, b], KeptKey) == [b]
  {
    assert [a, b][1..] == [b] && [b][1..] == [];
  }
}
