/**
 * The MongoDB collection operations the stores call, over a collection
 * held as a sequence of entities in natural (insertion) order. `doc`
 * gives an entity's BSON document.
 */
module Mongo {
  import opened Wrappers
  import opened ObjectIds
  import opened Bson

  /** Errors the driver reports to the stores. */
  datatype DbError =
    | InvalidHex               // bson.ErrInvalidHex from ObjectIDFromHex
    | InvalidByte(c: char)     // hex.InvalidByteError from ObjectIDFromHex
    | NoDocuments              // mongo.ErrNoDocuments from FindOne
    | DuplicateKey(id: ObjectId) // E11000 on InsertOne
    | Driver(msg: string)      // any other failure (network, server)

  /** err.Error() */
  function Message(e: DbError): string {
    match e
    case InvalidHex => InvalidHexMessage
    case InvalidByte(c) => "encoding/hex: invalid byte: " + UnicodeFormat(c)
    case NoDocuments => "mongo: no documents in result"
    case DuplicateKey(_) => "E11000 duplicate key error collection"
    case Driver(m) => m
  }

  /** An upper-case hex digit of a value below 16. */
  function UpperHexChar(d: nat): (c: char)
    requires d < 16
  {
    if d < 10 then ('0' as int + d) as char else ('A' as int + d - 10) as char
  }

  /** fmt's %0<width>X: the upper-case hex digits of `v`, padded with zeros to `width`. */
  function UpperHex(v: nat, width: nat): (s: string)
    ensures |s| >= width
    ensures v == 0 ==> |s| == width
    decreases v, width
  {
    if v == 0 && width == 0 then ""
    else UpperHex(v / 16, if width > 0 then width - 1 else 0) + [UpperHexChar(v % 16)]
  }

  /** fmt's %#U: "U+0041 'A'", with the quoted character only when it is printable ASCII. */
  function UnicodeFormat(c: char): string {
    "U+" + UpperHex(c as nat, 4) + if ' ' <= c <= '~' then " '" + [c] + "'" else ""
  }

  /**
   * bson.ObjectIDFromHex with its error: a length other than 24 is
   * ErrInvalidHex; 24 characters that are not all hex digits get
   * hex.Decode's InvalidByteError for the first offending character.
   */
  function ParseObjectId(s: string): (r: Result<ObjectId, DbError>)
    ensures r.Success? <==> ObjectIdFromHex(s).Some?
    ensures r.Success? ==> r.value == ObjectIdFromHex(s).value
    ensures |s| != HexLength ==> r == Failure(InvalidHex)
    ensures |s| == HexLength && r.Failure? ==>
      exists i :: 0 <= i < |s| && r == Failure(InvalidByte(s[i])) &&
        !IsHexDigit(s[i]) && forall j :: 0 <= j < i ==> IsHexDigit(s[j])
  {
    if |s| != HexLength then Failure(InvalidHex)
    else if !AllHex(s) then
      var i := FirstNonHex(s);
      Failure(InvalidByte(s[i]))
    else Success(ObjectIdFromHex(s).value)
  }

  /** fmt's %#U of 'z', as hex.InvalidByteError prints it. */
  lemma UnicodeFormatZ()
    ensures UnicodeFormat('z') == "U+007A 'z'"
  {
    assert UpperHex(0, 2) == "00" by {
      assert UpperHex(0, 1) == UpperHex(0, 0) + ['0'];
    }
    assert UpperHex(7, 3) == "007";
    assert UpperHex('z' as nat, 4) == UpperHex(7, 3) + ['A'];
  }

  /**
   * The two refusals as their messages read: a 24-character id with a
   * non-hex letter names that letter; an id of another length is
   * ErrInvalidHex.
   */
  lemma ParseObjectIdMessages()
    ensures Message(ParseObjectId("zzzzzzzzzzzzzzzzzzzzzzzz").error) == "encoding/hex: invalid byte: U+007A 'z'"
    ensures Message(ParseObjectId("abc").error) == InvalidHexMessage
  {
    var z := "zzzzzzzzzzzzzzzzzzzzzzzz";
    assert !IsHexDigit(z[0]);
    UnicodeFormatZ();
  }

  /** The filter {"_id": id}. */
  function ById(id: ObjectId): Filter {
    map["_id" := Eq(Oid(id))]
  }

  /** A document matches {"_id": id} exactly when its `_id` is `id`. */
  lemma ByIdMatches(d: Doc, id: ObjectId)
    ensures Matches(d, ById(id)) <==> "_id" in d && d["_id"] == Oid(id)
  {
    assert "_id" in ById(id);
  }

  /** Find + cursor.All: the matching entities, in natural order. */
  function Find<T(!new)>(items: seq<T>, doc: T -> Doc, f: Filter): (r: seq<T>)
    ensures |r| <= |items|
    ensures forall x :: x in r <==> x in items && Matches(doc(x), f)
    decreases |items|
  {
    if items == [] then []
    else (if Matches(doc(items[0]), f) then [items[0]] else []) + Find(items[1..], doc, f)
  }

  /** Find with the empty filter returns the whole collection, in order. */
  lemma {:induction false} FindAll<T(!new)>(items: seq<T>, doc: T -> Doc)
    ensures Find(items, doc, map[]) == items
    decreases |items|
  {
    if items != [] {
      FindAll(items[1..], doc);
      assert Matches(doc(items[0]), map[]);
      assert [items[0]] + items[1..] == items;
    }
  }

  /** The position of the first entity matching `f`, if any. */
  function FirstMatch<T(!new)>(items: seq<T>, doc: T -> Doc, f: Filter): (r: Option<nat>)
    ensures r.Some? ==> r.value < |items| && Matches(doc(items[r.value]), f)
    ensures r.Some? ==> forall j :: 0 <= j < r.value ==> !Matches(doc(items[j]), f)
    ensures r.None? <==> forall x :: x in items ==> !Matches(doc(x), f)
    decreases |items|
  {
    if items == [] then None
    else if Matches(doc(items[0]), f) then Some(0)
    else
      match FirstMatch(items[1..], doc, f)
      case None => None
      case Some(i) => Some(i + 1)
  }

  /** FindOne(...).Decode: the first match, or ErrNoDocuments. */
  function FindOne<T(!new)>(items: seq<T>, doc: T -> Doc, f: Filter): (r: Result<T, DbError>)
    ensures r.Success? ==> r.value in items && Matches(doc(r.value), f)
    ensures r.Failure? ==> r.error == NoDocuments && forall x :: x in items ==> !Matches(doc(x), f)
  {
    match FirstMatch(items, doc, f)
    case None => Failure(NoDocuments)
    case Some(i) => Success(items[i])
  }

  /** UpdateOne: `apply` rewrites the first match; no match changes nothing. */
  function UpdateOne<T(!new)>(items: seq<T>, doc: T -> Doc, f: Filter, apply: T -> T): (r: seq<T>)
    ensures |r| == |items|
    ensures FirstMatch(items, doc, f).None? ==> r == items
    ensures FirstMatch(items, doc, f).Some? ==>
      r == items[FirstMatch(items, doc, f).value := apply(items[FirstMatch(items, doc, f).value])]
  {
    match FirstMatch(items, doc, f)
    case None => items
    case Some(i) => items[i := apply(items[i])]
  }

  /** DeleteOne: the first match is removed; no match changes nothing. */
  function DeleteOne<T(!new)>(items: seq<T>, doc: T -> Doc, f: Filter): (r: seq<T>)
    ensures FirstMatch(items, doc, f).None? ==> r == items
    ensures FirstMatch(items, doc, f).Some? ==>
      r == items[..FirstMatch(items, doc, f).value] + items[FirstMatch(items, doc, f).value + 1..]
    ensures forall x :: x in r ==> x in items
  {
    match FirstMatch(items, doc, f)
    case None => items
    case Some(i) => items[..i] + items[i + 1..]
  }

  /** CountDocuments: how many entities match; zero exactly when none does. */
  function CountDocuments<T(!new)>(items: seq<T>, doc: T -> Doc, f: Filter): (n: nat)
    ensures n <= |items|
    ensures n == 0 <==> forall x :: x in items ==> !Matches(doc(x), f)
  {
    var r := Find(items, doc, f);
    assert r != [] ==> r[0] in r;
    |r|
  }

  /** No two entities share a key (the unique `_id` index). */
  predicate DistinctKeys<T>(items: seq<T>, key: T -> ObjectId) {
    forall i, j :: 0 <= i < j < |items| ==> key(items[i]) != key(items[j])
  }

  /** Some entity has key `id`. */
  predicate HasKey<T>(items: seq<T>, key: T -> ObjectId, id: ObjectId) {
    exists i :: 0 <= i < |items| && key(items[i]) == id
  }

  /** InsertOne keeps an `_id` the document already has and otherwise uses a generated one. */
  function InsertedId(own: ObjectId, generated: ObjectId): (id: ObjectId)
    ensures own != NilObjectId ==> id == own
    ensures own == NilObjectId ==> id == generated
  {
    if own == NilObjectId then generated else own
  }

  /** Appending an entity whose key is not taken keeps the keys distinct. */
  lemma AppendFreshKey<T>(items: seq<T>, key: T -> ObjectId, x: T)
    requires DistinctKeys(items, key) && !HasKey(items, key, key(x))
    ensures DistinctKeys(items + [x], key)
  {
    forall i, j | 0 <= i < j < |items| + 1
      ensures key((items + [x])[i]) != key((items + [x])[j])
    {
      if j == |items| {
        assert (items + [x])[i] == items[i];
      }
    }
  }

  /**
   * With distinct keys and a filter that selects by key, UpdateOne rewrites
   * exactly the entity with that key, if there is one, and nothing else.
   */
  lemma UpdateOneByKey<T(!new)>(items: seq<T>, doc: T -> Doc, key: T -> ObjectId, id: ObjectId, f: Filter, apply: T -> T)
    requires forall x :: Matches(doc(x), f) <==> key(x) == id
    requires DistinctKeys(items, key)
    ensures |UpdateOne(items, doc, f, apply)| == |items|
    ensures forall i :: 0 <= i < |items| ==>
      UpdateOne(items, doc, f, apply)[i] == if key(items[i]) == id then apply(items[i]) else items[i]
  {
    match FirstMatch(items, doc, f)
    case None =>
      assert forall i :: 0 <= i < |items| ==> items[i] in items;
    case Some(k) =>
  }

  /** With distinct keys and a filter that selects by key, the first match is the entity with that key. */
  lemma FirstMatchByKey<T(!new)>(items: seq<T>, doc: T -> Doc, key: T -> ObjectId, id: ObjectId, f: Filter)
    requires forall x :: Matches(doc(x), f) <==> key(x) == id
    requires DistinctKeys(items, key)
    ensures forall i :: 0 <= i < |items| ==> (FirstMatch(items, doc, f) == Some(i) <==> key(items[i]) == id)
  {
    match FirstMatch(items, doc, f)
    case None =>
      assert forall i :: 0 <= i < |items| ==> items[i] in items;
    case Some(k) =>
  }

  /**
   * With distinct keys and a filter that selects by key, DeleteOne removes
   * exactly the entity with that key, if there is one, and the keys stay
   * distinct.
   */
  lemma DeleteOneByKey<T(!new)>(items: seq<T>, doc: T -> Doc, key: T -> ObjectId, id: ObjectId, f: Filter)
    requires forall x :: Matches(doc(x), f) <==> key(x) == id
    requires DistinctKeys(items, key)
    ensures DistinctKeys(DeleteOne(items, doc, f), key)
    ensures forall x :: x in DeleteOne(items, doc, f) <==> x in items && key(x) != id
  {
    match FirstMatch(items, doc, f)
    case None =>
      assert forall i :: 0 <= i < |items| ==> items[i] in items;
    case Some(k) =>
      var r := DeleteOne(items, doc, f);
      assert r == items[..k] + items[k + 1..];
      assert forall i :: 0 <= i < |r| ==> r[i] == if i < k then items[i] else items[i + 1];
      forall x | x in items && key(x) != id ensures x in r {
        var i :| 0 <= i < |items| && items[i] == x;
        assert i != k;
        if i < k { assert r[i] == x; } else { assert r[i - 1] == x; }
      }
  }

  /** An update that keeps every key keeps the keys distinct. */
  lemma UpdateOneKeepsKeys<T(!new)>(items: seq<T>, doc: T -> Doc, key: T -> ObjectId, f: Filter, apply: T -> T)
    requires forall x :: key(apply(x)) == key(x)
    requires DistinctKeys(items, key)
    ensures DistinctKeys(UpdateOne(items, doc, f, apply), key)
  {
  }
}
