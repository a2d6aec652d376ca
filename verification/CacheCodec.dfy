/**
 * The tagged-date codec of the cache: JSON has no dates, so a date is written as an object with
 * the single key `__cacheDate` and revived when read.
 */
module CacheCodec {
  import opened Prelude

  const TAG := "__cacheDate"

  /** A JavaScript value of plain data.  `Date(None)` is an invalid date. */
  datatype Js =
    | Null
    | Bool(b: bool)
    | Num(n: real)
    | Str(s: string)
    | Date(time: Option<int>)
    | Arr(items: seq<Js>)
    | Obj(fields: map<string, Js>)

  /** The range of an ECMAScript time value. */
  predicate TimeValue(t: int) { -8_640_000_000_000_000 <= t <= 8_640_000_000_000_000 }

  predicate WellFormed(v: Js) {
    match v
    case Date(Some(t)) => TimeValue(t)
    case Arr(items) => forall i | 0 <= i < |items| :: WellFormed(items[i])
    case Obj(fields) => forall k | k in fields :: WellFormed(fields[k])
    case _ => true
  }

  /** What JSON can carry. */
  predicate Plain(v: Js) {
    match v
    case Date(_) => false
    case Arr(items) => forall i | 0 <= i < |items| :: Plain(items[i])
    case Obj(fields) => forall k | k in fields :: Plain(fields[k])
    case _ => true
  }

  /** Reading back an ISO string gives the instant it was printed from. */
  ghost predicate IsoInverse(iso: int -> string, parse: string -> Option<int>) {
    forall t | TimeValue(t) :: parse(iso(t)) == Some(t)
  }

  function Encode(iso: int -> string, v: Js): Js
    decreases v
  {
    match v
    case Date(None) => Null
    case Date(Some(t)) => Obj(map[TAG := Str(iso(t))])
    case Arr(items) => Arr(seq(|items|, i requires 0 <= i < |items| => Encode(iso, items[i])))
    case Obj(fields) => Obj(map k | k in fields :: Encode(iso, fields[k]))
    case _ => v
  }

  /** An object that decoding takes for a date. */
  predicate LooksTagged(fields: map<string, Js>) {
    |fields| == 1 && TAG in fields && fields[TAG].Str?
  }

  function Decode(parse: string -> Option<int>, v: Js): Js
    decreases v
  {
    match v
    case Arr(items) => Arr(seq(|items|, i requires 0 <= i < |items| => Decode(parse, items[i])))
    case Obj(fields) =>
      if LooksTagged(fields) then Date(parse(fields[TAG].s))
      else Obj(map k | k in fields :: Decode(parse, fields[k]))
    case _ => v
  }

  /** No invalid date, and no sub-object that is exactly `{ __cacheDate: <string> }`. */
  predicate Faithful(v: Js) {
    match v
    case Date(time) => time.Some?
    case Arr(items) => forall i | 0 <= i < |items| :: Faithful(items[i])
    case Obj(fields) => !LooksTagged(fields) && forall k | k in fields :: Faithful(fields[k])
    case _ => true
  }

  /** Everything written is plain JSON. */
  lemma {:induction false} EncodedIsPlain(iso: int -> string, v: Js)
    ensures Plain(Encode(iso, v))
    decreases v
  {
    match v
    case Arr(items) =>
      forall i | 0 <= i < |items| ensures Plain(Encode(iso, items[i])) {
        EncodedIsPlain(iso, items[i]);
      }
    case Obj(fields) =>
      forall k | k in fields ensures Plain(Encode(iso, fields[k])) {
        EncodedIsPlain(iso, fields[k]);
      }
    case _ =>
  }

  /** Encoding hides or creates no tag: an encoded object is tagged exactly when the original was. */
  lemma EncodedFields(iso: int -> string, fields: map<string, Js>)
    ensures var encoded := Encode(iso, Obj(fields));
            && encoded.Obj? && encoded.fields.Keys == fields.Keys
            && (forall k | k in fields :: encoded.fields[k] == Encode(iso, fields[k]))
            && LooksTagged(encoded.fields) == LooksTagged(fields)
  {
  }

  lemma RoundTripItems(iso: int -> string, parse: string -> Option<int>, items: seq<Js>)
    requires forall i | 0 <= i < |items| :: Decode(parse, Encode(iso, items[i])) == items[i] <==> Faithful(items[i])
    ensures Decode(parse, Encode(iso, Arr(items))) == Arr(items) <==> Faithful(Arr(items))
  {
  }

  lemma {:induction false} RoundTripFields(iso: int -> string, parse: string -> Option<int>, fields: map<string, Js>)
    requires forall k | k in fields :: Decode(parse, Encode(iso, fields[k])) == fields[k] <==> Faithful(fields[k])
    ensures Decode(parse, Encode(iso, Obj(fields))) == Obj(fields) <==> Faithful(Obj(fields))
  {
    EncodedFields(iso, fields);
    var encoded := Encode(iso, Obj(fields));
    var back := Decode(parse, encoded);
    if !LooksTagged(fields) {
      assert back.fields.Keys == fields.Keys;
      forall k | k in fields ensures back.fields[k] == Decode(parse, Encode(iso, fields[k])) {
        assert encoded.fields[k] == Encode(iso, fields[k]);
      }
      assert back.fields == fields <==> forall k | k in fields :: back.fields[k] == fields[k];
    }
  }

  /** The round trip holds for exactly the faithful values. */
  lemma {:induction false} RoundTrip(iso: int -> string, parse: string -> Option<int>, v: Js)
    requires IsoInverse(iso, parse) && WellFormed(v)
    ensures Decode(parse, Encode(iso, v)) == v <==> Faithful(v)
    decreases v
  {
    match v
    case Date(Some(t)) =>
      assert LooksTagged(map[TAG := Str(iso(t))]);
    case Arr(items) =>
      forall i | 0 <= i < |items|
        ensures Decode(parse, Encode(iso, items[i])) == items[i] <==> Faithful(items[i])
      {
        RoundTrip(iso, parse, items[i]);
      }
      RoundTripItems(iso, parse, items);
    case Obj(fields) =>
      forall k | k in fields
        ensures Decode(parse, Encode(iso, fields[k])) == fields[k] <==> Faithful(fields[k])
      {
        RoundTrip(iso, parse, fields[k]);
      }
      RoundTripFields(iso, parse, fields);
    case _ =>
  }

  /** A field that happens to be called `__cacheDate` is fine as long as it holds no string. */
  lemma LoneTagWithDate(iso: int -> string, parse: string -> Option<int>, t: int)
    requires IsoInverse(iso, parse) && TimeValue(t)
    ensures var v := Obj(map[TAG := Date(Some(t))]); Decode(parse, Encode(iso, v)) == v
  {
  }

  /** And one that holds a string comes back as a date. */
  lemma LoneTagWithString(iso: int -> string, parse: string -> Option<int>, s: string)
    ensures var v := Obj(map[TAG := Str(s)]); Decode(parse, Encode(iso, v)) == Date(parse(s))
  {
    var fields := map[TAG := Str(s)];
    EncodedFields(iso, fields);
    assert LooksTagged(fields);
  }
}
