/** Opaque page cursors: "left:right" under unpadded URL-safe base64. A Go
    string is a byte sequence, so texts here are byte sequences too. */
module Cursors {
  import opened Sql
  import opened Schema

  type Byte = b: int | 0 <= b < 256
  type Sextet = v: int | 0 <= v < 64
  type Text = seq<Byte>

  const COLON: Byte := 58
  const MINUS: Byte := 45
  const PLUS: Byte := 43
  const ZERO: Byte := 48

  // ---- base64.RawURLEncoding ----

  function Letter(v: Sextet): Byte {
    if v < 26 then 65 + v else if v < 52 then 71 + v else if v < 62 then v - 4 else if v == 62 then 45 else 95
  }

  function Value(c: Byte): Option<Sextet> {
    if 65 <= c <= 90 then Some(c - 65)
    else if 97 <= c <= 122 then Some(c - 71)
    else if 48 <= c <= 57 then Some(c + 4)
    else if c == 45 then Some(62)
    else if c == 95 then Some(63)
    else None
  }

  /** The letters of one group of one to three bytes. */
  function Group(s: Text): (e: Text)
    requires 1 <= |s| <= 3
    ensures |e| == |s| + 1 && forall c :: c in e ==> Value(c).Some?
  {
    if |s| == 1 then [Letter(s[0] / 4), Letter(s[0] % 4 * 16)]
    else if |s| == 2 then [Letter(s[0] / 4), Letter(s[0] % 4 * 16 + s[1] / 16), Letter(s[1] % 16 * 4)]
    else [Letter(s[0] / 4), Letter(s[0] % 4 * 16 + s[1] / 16), Letter(s[1] % 16 * 4 + s[2] / 64), Letter(s[2] % 64)]
  }

  function Encode64(s: Text): Text {
    if s == [] then [] else if |s| <= 3 then Group(s) else Group(s[..3]) + Encode64(s[3..])
  }

  /** The bytes of one group of two to four letters; bits past the last whole
      byte are ignored, as the non-strict decoder does. */
  function Quantum(s: Text): Option<Text>
    requires |s| <= 4
  {
    if |s| < 2 || exists c :: c in s && Value(c).None? then None
    else
      var first := Value(s[0]).value * 4 + Value(s[1]).value / 16;
      if |s| == 2 then Some([first])
      else
        var second := Value(s[1]).value % 16 * 16 + Value(s[2]).value / 4;
        if |s| == 3 then Some([first, second])
        else Some([first, second, Value(s[2]).value % 4 * 64 + Value(s[3]).value])
  }

  function DecodeQuanta(s: Text): Option<Text> {
    if s == [] then Some([])
    else if |s| <= 4 then Quantum(s)
    else
      var head, rest := Quantum(s[..4]), DecodeQuanta(s[4..]);
      if head.None? || rest.None? then None else Some(head.value + rest.value)
  }

  /** The decoder skips line breaks anywhere in its input. */
  function WithoutBreaks(s: Text): Text {
    if s == [] then [] else (if s[0] == 10 || s[0] == 13 then [] else [s[0]]) + WithoutBreaks(s[1..])
  }

  function Decode64(s: Text): Option<Text> { DecodeQuanta(WithoutBreaks(s)) }

  lemma ValueOfLetter(v: Sextet)
    ensures Value(Letter(v)) == Some(v) && Letter(v) != 10 && Letter(v) != 13
  {}

  lemma {:induction false} NoBreaksDropped(s: Text)
    requires 10 !in s && 13 !in s
    ensures WithoutBreaks(s) == s
  {
    if s != [] {
      NoBreaksDropped(s[1..]);
      assert s == [s[0]] + s[1..];
    }
  }

  lemma {:induction false} EncodedHasNoBreaks(s: Text)
    ensures 10 !in Encode64(s) && 13 !in Encode64(s)
  {
    if |s| > 3 { EncodedHasNoBreaks(s[3..]); }
  }

  lemma GroupOfOne(s: Text)
    requires |s| == 1
    ensures Quantum(Group(s)) == Some(s)
  {
    ValueOfLetter(s[0] / 4); ValueOfLetter(s[0] % 4 * 16);
    assert Quantum(Group(s)).value == s;
  }

  /** Two bytes regrouped as three sextets and back. */
  lemma RegroupedTwo(a: Byte, b: Byte, x: int)
    requires x == a % 4 * 16 + b / 16
    ensures a / 4 * 4 + x / 16 == a && x % 16 * 16 + b % 16 * 4 / 4 == b
  {}

  lemma GroupOfTwo(s: Text)
    requires |s| == 2
    ensures Quantum(Group(s)) == Some(s)
  {
    hide Quantum, Letter, Value;
    var x := s[0] % 4 * 16 + s[1] / 16;
    RegroupedTwo(s[0], s[1], x);
    ThreeLetters(s[0] / 4, x, s[1] % 16 * 4);
    assert s == [s[0], s[1]];
  }

  lemma ThreeLetters(w: Sextet, x: Sextet, y: Sextet)
    ensures Quantum([Letter(w), Letter(x), Letter(y)]) == Some([w * 4 + x / 16, x % 16 * 16 + y / 4])
  {
    hide Letter, Value;
    ValueOfLetter(w); ValueOfLetter(x); ValueOfLetter(y);
  }

  /** Three bytes regrouped as four sextets and back. */
  lemma Regrouped(a: Byte, b: Byte, c: Byte, x: int, y: int)
    requires x == a % 4 * 16 + b / 16 && y == b % 16 * 4 + c / 64
    ensures a / 4 * 4 + x / 16 == a && x % 16 * 16 + y / 4 == b && y % 4 * 64 + c % 64 == c
  {}

  lemma GroupOfThree(s: Text)
    requires |s| == 3
    ensures Quantum(Group(s)) == Some(s)
  {
    hide Quantum, Letter, Value;
    var x, y := s[0] % 4 * 16 + s[1] / 16, s[1] % 16 * 4 + s[2] / 64;
    Regrouped(s[0], s[1], s[2], x, y);
    FourLetters(s[0] / 4, x, y, s[2] % 64);
    assert s == [s[0], s[1], s[2]];
  }

  lemma FourLetters(w: Sextet, x: Sextet, y: Sextet, z: Sextet)
    ensures Quantum([Letter(w), Letter(x), Letter(y), Letter(z)]) ==
            Some([w * 4 + x / 16, x % 16 * 16 + y / 4, y % 4 * 64 + z])
  {
    hide Letter, Value;
    ValueOfLetter(w); ValueOfLetter(x); ValueOfLetter(y); ValueOfLetter(z);
  }

  lemma {:induction false} QuantaRoundTrip(s: Text)
    ensures DecodeQuanta(Encode64(s)) == Some(s)
  {
    if |s| == 1 {
      GroupOfOne(s);
    } else if |s| == 2 {
      GroupOfTwo(s);
    } else if |s| == 3 {
      GroupOfThree(s);
    } else if |s| > 3 {
      var e := Encode64(s);
      GroupOfThree(s[..3]);
      QuantaRoundTrip(s[3..]);
      EncodedNonEmpty(s[3..]);
      assert e[..4] == Group(s[..3]) && e[4..] == Encode64(s[3..]);
      assert s == s[..3] + s[3..];
    }
  }

  lemma EncodedNonEmpty(s: Text)
    ensures Encode64(s) == [] <==> s == []
  {}

  /** Every byte string survives the URL-safe base64 of the cursors. */
  lemma Base64RoundTrip(s: Text)
    ensures Decode64(Encode64(s)) == Some(s)
  {
    EncodedHasNoBreaks(s);
    NoBreaksDropped(Encode64(s));
    QuantaRoundTrip(s);
  }

  /** The URL- and filename-safe alphabet of section 5 of RFC 4648. */
  const UPPER := "ABCDEFGHIJKLMNOPQRSTUVWXYZ"
  const LOWER := "abcdefghijklmnopqrstuvwxyz"
  const DIGITS_AND_MARKS := "0123456789-_"
  const ALPHABET := UPPER + LOWER + DIGITS_AND_MARKS

  /** The 24 bits of three bytes, most significant first, are those of the four sextets (section 4 of RFC 4648). */
  lemma GroupBits(s: Text, e: Text)
    requires |s| == 3 && e == Group(s)
    ensures Value(e[0]).value * 0x40000 + Value(e[1]).value * 0x1000 + Value(e[2]).value * 0x40 + Value(e[3]).value ==
            s[0] as int * 0x10000 + s[1] as int * 0x100 + s[2] as int
  {
    var x, y := s[0] % 4 * 16 + s[1] / 16, s[1] % 16 * 4 + s[2] / 64;
    ValueOfLetter(s[0] / 4); ValueOfLetter(x); ValueOfLetter(y); ValueOfLetter(s[2] % 64);
    hide Letter, Value;
  }

  /** Unpadded: four letters for every three bytes and one more than the bytes left over, all of the alphabet. */
  lemma {:induction false} EncodedForm(s: Text)
    ensures |Encode64(s)| == |s| / 3 * 4 + (if |s| % 3 == 0 then 0 else |s| % 3 + 1)
    ensures forall i :: 0 <= i < |Encode64(s)| ==> InAlphabet(Encode64(s)[i])
  {
    hide InAlphabet, Letter;
    forall v: Sextet ensures InAlphabet(Letter(v)) { LetterOfAlphabet(v); }
    if |s| > 3 { EncodedForm(s[3..]); }
  }

  predicate InAlphabet(c: Byte) { c as char in ALPHABET }

  lemma UpperAndLower(v: nat)
    requires v < 26
    ensures UPPER[v] as int == 65 + v && LOWER[v] as int == 97 + v
  {}

  lemma DigitsAndMarks(v: nat)
    requires v < 12
    ensures DIGITS_AND_MARKS[v] as int == if v < 10 then 48 + v else if v == 10 then 45 else 95
  {}

  lemma LetterOfAlphabet(v: Sextet)
    ensures ALPHABET[v] as int == Letter(v) && InAlphabet(Letter(v))
  {
    LetterAt(v);
    assert ALPHABET[v] in ALPHABET;
  }

  lemma LetterAt(v: Sextet)
    ensures v < |ALPHABET| && ALPHABET[v] as int == Letter(v)
  {
    AlphabetAt(v);
    if v < 26 { UpperAndLower(v); } else if v < 52 { UpperAndLower(v - 26); } else { DigitsAndMarks(v - 52); }
  }

  lemma AlphabetAt(v: Sextet)
    ensures |ALPHABET| == 64
    ensures ALPHABET[v] == if v < 26 then UPPER[v] else if v < 52 then LOWER[v - 26] else DIGITS_AND_MARKS[v - 52]
  {}

  // ---- strconv.ParseInt and the %d verb ----

  const MIN_INT64: int := -0x8000_0000_0000_0000
  const MAX_INT64: int := 0x7FFF_FFFF_FFFF_FFFF

  predicate Int64(n: int) { MIN_INT64 <= n <= MAX_INT64 }

  function FormatDigits(n: nat): Text {
    if n < 10 then [ZERO + n] else FormatDigits(n / 10) + [ZERO + n % 10]
  }

  function FormatInt(n: int): Text { if n < 0 then [MINUS] + FormatDigits(-n) else FormatDigits(n) }

  function ParseDigits(s: Text): Option<nat> {
    if s == [] then Some(0)
    else
      var last, high := s[|s| - 1], ParseDigits(s[..|s| - 1]);
      if high.None? || !(ZERO <= last <= ZERO + 9) then None else Some(high.value * 10 + (last - ZERO))
  }

  /** An optional sign, at least one digit, and a value that fits 64 bits. */
  function ParseInt(s: Text): Option<int> {
    var negative := s != [] && s[0] == MINUS;
    var digits := if s != [] && (s[0] == MINUS || s[0] == PLUS) then s[1..] else s;
    var magnitude := ParseDigits(digits);
    if digits == [] || magnitude.None? then None
    else
      var n: int := if negative then 0 - magnitude.value else magnitude.value;
      if Int64(n) then Some(n) else None
  }

  lemma {:induction false} DigitsRoundTrip(n: nat)
    ensures ParseDigits(FormatDigits(n)) == Some(n)
    ensures FormatDigits(n) != [] && forall c :: c in FormatDigits(n) ==> ZERO <= c <= ZERO + 9
  {
    var s := FormatDigits(n);
    if n < 10 {
      assert ParseDigits(s[..0]) == Some(0);
    } else {
      DigitsRoundTrip(n / 10);
      assert s[..|s| - 1] == FormatDigits(n / 10);
    }
  }

  lemma IntRoundTrip(n: int)
    requires Int64(n)
    ensures ParseInt(FormatInt(n)) == Some(n) && COLON !in FormatInt(n)
  {
    DigitsRoundTrip(if n < 0 then -n else n);
    if n < 0 {
      assert FormatInt(n)[1..] == FormatDigits(-n);
    } else {
      assert FormatDigits(n)[0] in FormatDigits(n);
    }
  }

  // ---- strings.Cut at the first colon ----

  function Cut(s: Text): Option<(Text, Text)> {
    if s == [] then None
    else if s[0] == COLON then Some(([], s[1..]))
    else
      var c := Cut(s[1..]);
      if c.None? then None else Some(([s[0]] + c.value.0, c.value.1))
  }

  lemma {:induction false} CutAtFirstColon(l: Text, r: Text)
    requires COLON !in l
    ensures Cut(l + [COLON] + r) == Some((l, r))
  {
    var s := l + [COLON] + r;
    if l == [] {
      assert s[1..] == r;
    } else {
      assert l[0] in l;
      CutAtFirstColon(l[1..], r);
      assert s[1..] == l[1..] + [COLON] + r;
      assert l == [l[0]] + l[1..];
    }
  }

  // ---- cursors ----

  /** A decoded cursor: malformed, absent (the empty string) or a keyset position. */
  datatype Decoded<K> = Malformed | Start | At(position: K)

  function Pack(left: Text, right: Text): Text { Encode64(left + [COLON] + right) }

  function Unpack(cursor: Text): Option<(Text, Text)> {
    var raw := Decode64(cursor);
    if raw.None? then None else Cut(raw.value)
  }

  lemma PackRoundTrip(left: Text, right: Text)
    requires COLON !in left
    ensures Pack(left, right) != [] && Unpack(Pack(left, right)) == Some((left, right))
  {
    Base64RoundTrip(left + [COLON] + right);
    EncodedNonEmpty(left + [COLON] + right);
    CutAtFirstColon(left, right);
  }

  lemma {:induction false} CutMeans(s: Text, l: Text, r: Text)
    ensures Cut(s) == Some((l, r)) <==> s == l + [COLON] + r && COLON !in l
    decreases |s|
  {
    if s != [] && s[0] != COLON {
      if l == [] {
        assert l + [COLON] + r == [COLON] + r;
      } else {
        CutMeans(s[1..], l[1..], r);
        assert l == [l[0]] + l[1..];
        if s == l + [COLON] + r { assert s[1..] == l[1..] + [COLON] + r; }
        if s[1..] == l[1..] + [COLON] + r && s[0] == l[0] { assert s == [s[0]] + s[1..] == l + [COLON] + r; }
      }
    }
  }

  /** Which texts a cursor decodes from: base64 of two integers around the first colon. */
  lemma UpdatesCursorExact(cursor: Text, p: Place)
    ensures DecodeUpdatesCursor(cursor) == Start <==> cursor == []
    ensures DecodeUpdatesCursor(cursor) == At(p) <==>
            && cursor != []
            && exists l, r :: Decode64(cursor) == Some(l + [COLON] + r) && COLON !in l
                              && ParseInt(l) == Some(p.createdAt) && ParseInt(r) == Some(p.serial)
  {
    hide ParseInt, Decode64, Cut;
    var raw := Decode64(cursor);
    if raw.Some? {
      forall l, r ensures Cut(raw.value) == Some((l, r)) <==> raw.value == l + [COLON] + r && COLON !in l {
        CutMeans(raw.value, l, r);
      }
      if Cut(raw.value).Some? {
        var (l, r) := Cut(raw.value).value;
        assert raw.value == l + [COLON] + r;
      }
    }
  }

  function EncodeUpdatesCursor(p: Place): Text { Pack(FormatInt(p.createdAt), FormatInt(p.serial)) }

  function DecodeUpdatesCursor(cursor: Text): Decoded<Place> {
    if cursor == [] then Start
    else
      var parts := Unpack(cursor);
      if parts.None? then Malformed
      else
        var nanos, serial := ParseInt(parts.value.0), ParseInt(parts.value.1);
        if nanos.None? || serial.None? then Malformed else At(Place(nanos.value, serial.value))
  }

  lemma UpdatesCursorRoundTrip(p: Place)
    requires Int64(p.createdAt) && Int64(p.serial)
    ensures EncodeUpdatesCursor(p) != [] && DecodeUpdatesCursor(EncodeUpdatesCursor(p)) == At(p)
  {
    IntRoundTrip(p.createdAt);
    IntRoundTrip(p.serial);
    PackRoundTrip(FormatInt(p.createdAt), FormatInt(p.serial));
  }

  /** What the documentation of a library's text form promises of one value. */
  predicate RoundTrips<V(==)>(format: V -> Text, parse: Text -> Option<V>, v: V) { parse(format(v)) == Some(v) }

  datatype InboxPlace<Id> = InboxPlace(createdAt: int, id: Id)

  function EncodeInboxCursor<Id>(format: Id -> Text, p: InboxPlace<Id>): Text {
    Pack(FormatInt(p.createdAt), format(p.id))
  }

  function DecodeInboxCursor<Id>(parse: Text -> Option<Id>, cursor: Text): Decoded<InboxPlace<Id>> {
    if cursor == [] then Start
    else
      var parts := Unpack(cursor);
      if parts.None? then Malformed
      else
        var nanos, id := ParseInt(parts.value.0), parse(parts.value.1);
        if nanos.None? || id.None? then Malformed else At(InboxPlace(nanos.value, id.value))
  }

  lemma InboxCursorRoundTrip<Id>(format: Id -> Text, parse: Text -> Option<Id>, p: InboxPlace<Id>)
    requires RoundTrips(format, parse, p.id) && Int64(p.createdAt)
    ensures EncodeInboxCursor(format, p) != [] && DecodeInboxCursor(parse, EncodeInboxCursor(format, p)) == At(p)
  {
    IntRoundTrip(p.createdAt);
    PackRoundTrip(FormatInt(p.createdAt), format(p.id));
  }

  datatype DiscoverPlace<Id> = DiscoverPlace(distance: real, id: Id)

  function EncodeDiscoverCursor<Id>(formatReal: real -> Text, format: Id -> Text, p: DiscoverPlace<Id>): Text {
    Pack(formatReal(p.distance), format(p.id))
  }

  /** A negative distance is refused; not-a-number and infinities are outside `real` and fail to parse. */
  function DecodeDiscoverCursor<Id>(parseReal: Text -> Option<real>, parse: Text -> Option<Id>,
                                    cursor: Text): Decoded<DiscoverPlace<Id>>
  {
    if cursor == [] then Start
    else
      var parts := Unpack(cursor);
      if parts.None? then Malformed
      else
        var distance, id := parseReal(parts.value.0), parse(parts.value.1);
        if distance.None? || distance.value < 0.0 || id.None? then Malformed
        else At(DiscoverPlace(distance.value, id.value))
  }

  lemma DiscoverCursorRoundTrip<Id>(formatReal: real -> Text, parseReal: Text -> Option<real>, format: Id -> Text,
                                    parse: Text -> Option<Id>, p: DiscoverPlace<Id>)
    requires RoundTrips(formatReal, parseReal, p.distance) && RoundTrips(format, parse, p.id)
    requires p.distance >= 0.0 && COLON !in formatReal(p.distance)
    ensures var c := EncodeDiscoverCursor(formatReal, format, p);
            c != [] && DecodeDiscoverCursor(parseReal, parse, c) == At(p)
  {
    PackRoundTrip(formatReal(p.distance), format(p.id));
  }
}
