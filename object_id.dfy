/**
 * BSON ObjectIDs: twelve bytes, written as 24 hexadecimal digits.
 * An ObjectID is modelled by the number its twelve bytes spell, big-endian.
 */
module ObjectIds {
  import opened Wrappers

  function Pow16(n: nat): (r: nat)
    ensures r >= 1
  {
    if n == 0 then 1 else 16 * Pow16(n - 1)
  }

  /** Number of hex digits in the text form of an ObjectID. */
  const HexLength: nat := 24

  type IdValue = v: nat | v < Pow16(24)

  datatype ObjectId = ObjectId(value: IdValue)

  /** bson.NilObjectID, the zero value of the Go type. */
  const NilObjectId: ObjectId := ObjectId(0)

  /** The message of bson.ErrInvalidHex. */
  const InvalidHexMessage: string := "the provided hex string is not a valid ObjectID"

  predicate IsHexDigit(c: char) {
    ('0' <= c <= '9') || ('a' <= c <= 'f') || ('A' <= c <= 'F')
  }

  predicate AllHex(s: string) {
    forall i :: 0 <= i < |s| ==> IsHexDigit(s[i])
  }

  function DigitValue(c: char): (d: nat)
    requires IsHexDigit(c)
    ensures d < 16
  {
    if '0' <= c <= '9' then c as nat - '0' as nat
    else if 'a' <= c <= 'f' then c as nat - 'a' as nat + 10
    else c as nat - 'A' as nat + 10
  }

  /** The number a string of hex digits spells, most significant digit first. */
  function HexValue(s: string): (v: nat)
    requires AllHex(s)
    ensures v < Pow16(|s|)
  {
    if s == [] then 0 else HexValue(s[..|s| - 1]) * 16 + DigitValue(s[|s| - 1])
  }

  /**
   * bson.ObjectIDFromHex: exactly 24 hex digits (either case) parse and
   * every other string is refused; Mongo.ParseObjectId gives the error.
   */
  function ObjectIdFromHex(s: string): (r: Option<ObjectId>)
    ensures r.Some? <==> |s| == HexLength && AllHex(s)
    ensures r.Some? ==> r.value.value == HexValue(s)
  {
    if |s| == HexLength && AllHex(s) then Some(ObjectId(HexValue(s))) else None
  }

  /** The position of the first character of `s` that is not a hex digit. */
  function FirstNonHex(s: string): (i: nat)
    requires !AllHex(s)
    ensures i < |s| && !IsHexDigit(s[i])
    ensures forall j :: 0 <= j < i ==> IsHexDigit(s[j])
  {
    if !IsHexDigit(s[0]) then 0
    else
      assert !AllHex(s[1..]) by {
        var k :| 0 <= k < |s| && !IsHexDigit(s[k]);
        assert k != 0 && s[1..][k - 1] == s[k];
      }
      1 + FirstNonHex(s[1..])
  }

  /** Lower-case hex digit of a value below 16. */
  function HexChar(d: nat): (c: char)
    requires d < 16
    ensures IsHexDigit(c) && DigitValue(c) == d
    ensures !('A' <= c <= 'F')
  {
    if d < 10 then ('0' as int + d) as char else ('a' as int + d - 10) as char
  }

  /** The n lowest hex digits of v, most significant first. */
  function Digits(v: nat, n: nat): (s: string)
    ensures |s| == n && AllHex(s)
  {
    if n == 0 then [] else Digits(v / 16, n - 1) + [HexChar(v % 16)]
  }

  /** ObjectID.Hex(): the 24 lower-case hex digits of an id. */
  function Hex(id: ObjectId): (s: string)
    ensures |s| == HexLength && AllHex(s)
  {
    Digits(id.value, HexLength)
  }

  lemma {:induction false} DigitsValue(v: nat, n: nat)
    requires v < Pow16(n)
    ensures HexValue(Digits(v, n)) == v
  {
    if n > 0 {
      DigitsValue(v / 16, n - 1);
      var s := Digits(v, n);
      assert s[..|s| - 1] == Digits(v / 16, n - 1);
    }
  }

  /** Printing an id and parsing the text back gives the same id. */
  lemma HexRoundTrip(id: ObjectId)
    ensures ObjectIdFromHex(Hex(id)) == Some(id)
  {
    DigitsValue(id.value, HexLength);
  }

  /** strings.ToLower on one character: ASCII letters only. */
  function Lower(c: char): (r: char)
    ensures 'A' <= c <= 'Z' ==> r as int == c as int + 32
    ensures !('A' <= c <= 'Z') ==> r == c
  {
    if 'A' <= c <= 'Z' then (c as int + 32) as char else c
  }

  /** `s` and `t` differ at most in the case of their letters. */
  predicate SameIgnoringCase(s: string, t: string) {
    |s| == |t| && forall i :: 0 <= i < |s| ==> Lower(s[i]) == Lower(t[i])
  }

  /** Hex digits that differ only in case spell the same number. */
  lemma {:induction false} HexValueIgnoresCase(s: string, t: string)
    requires AllHex(s) && SameIgnoringCase(s, t)
    ensures AllHex(t) && HexValue(s) == HexValue(t)
    decreases |s|
  {
    forall i | 0 <= i < |t| ensures IsHexDigit(t[i]) && DigitValue(t[i]) == DigitValue(s[i]) {
      assert Lower(s[i]) == Lower(t[i]);
    }
    if s != [] {
      var n := |s| - 1;
      assert SameIgnoringCase(s[..n], t[..n]) by {
        forall i | 0 <= i < n ensures Lower(s[..n][i]) == Lower(t[..n][i]) {
          assert s[..n][i] == s[i] && t[..n][i] == t[i];
        }
      }
      HexValueIgnoresCase(s[..n], t[..n]);
    }
  }

  /**
   * Two spellings of an id that differ only in the case of their letters
   * parse alike: both to the same id, or both are refused.
   */
  lemma ParseIgnoresCase(s: string, t: string)
    requires SameIgnoringCase(s, t)
    ensures ObjectIdFromHex(s) == ObjectIdFromHex(t)
  {
    if AllHex(s) {
      HexValueIgnoresCase(s, t);
    } else if AllHex(t) {
      HexValueIgnoresCase(t, s);
    }
  }
}
