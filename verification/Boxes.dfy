/** The ISO base media box walk (section 4.2 of ISO/IEC 14496-12) and the mvhd
    duration (section 8.2.2), over any byte buffer. */
module Boxes {
  import opened Collections
  import opened Sql
  import opened Cursors

  // ---- 64-bit machine arithmetic ----

  const TWO_32: int := 0x1_0000_0000
  const TWO_63: int := 0x8000_0000_0000_0000
  const TWO_64: int := 0x1_0000_0000_0000_0000

  /** The value an int64 holds after n is computed modulo 2^64. */
  function Wrap(n: int): (r: int)
    ensures -TWO_63 <= r < TWO_63
  {
    (n + TWO_63) % TWO_64 - TWO_63
  }

  lemma WrapInRange(n: int)
    requires 0 <= n < TWO_63
    ensures Wrap(n) == n
  {}

  // ---- big-endian integers ----

  function Get32(s: seq<Byte>): (n: nat)
    requires |s| == 4
    ensures n < TWO_32
  {
    s[0] as int * 0x100_0000 + s[1] as int * 0x1_0000 + s[2] as int * 0x100 + s[3] as int
  }

  function Get64(s: seq<Byte>): (n: nat)
    requires |s| == 8
    ensures n < TWO_64
  {
    Get32(s[..4]) * TWO_32 + Get32(s[4..])
  }

  function Put32(n: nat): (s: seq<Byte>)
    requires n < TWO_32
    ensures |s| == 4
  {
    [n / 0x100_0000, n / 0x1_0000 % 0x100, n / 0x100 % 0x100, n % 0x100]
  }

  function Put64(n: nat): (s: seq<Byte>)
    requires n < TWO_64
    ensures |s| == 8
  {
    Put32(n / TWO_32) + Put32(n % TWO_32)
  }

  lemma Get32Put32(n: nat)
    requires n < TWO_32
    ensures Get32(Put32(n)) == n
  {
    var a, b, c := n / 0x100, n / 0x1_0000, n / 0x100_0000;
    assert a / 0x100 == b && b / 0x100 == c;
  }

  lemma Get64Put64(n: nat)
    requires n < TWO_64
    ensures Get64(Put64(n)) == n
  {
    Get32Put32(n / TWO_32);
    Get32Put32(n % TWO_32);
    assert Put64(n)[..4] == Put32(n / TWO_32) && Put64(n)[4..] == Put32(n % TWO_32);
  }

  // ---- boxes ----

  type BoxType = s: seq<Byte> | |s| == 4 witness [0, 0, 0, 0]

  /** A box's type and the range of its bytes, header included. */
  datatype Box = Box(kind: BoxType, start: nat, end: nat)

  /** The box at an offset: nothing if the header is truncated, if the declared
      size does not fit in the rest of the buffer, or if it is smaller than its
      own header. Size 0 means "to the end", size 1 "64-bit size follows". */
  function BoxAt(buf: seq<Byte>, offset: nat): (r: Option<Box>)
    ensures r.Some? ==> r.value.start == offset && offset + 8 <= r.value.end <= |buf|
  {
    if offset + 8 > |buf| then None
    else
      var size32 := Get32(buf[offset..offset + 4]);
      if size32 == 1 && offset + 16 > |buf| then None
      else
        var size := if size32 == 0 then |buf| - offset else if size32 == 1 then Get64(buf[offset + 8..offset + 16])
            else size32;
        var header := if size32 == 1 then 16 else 8;
        if header <= size <= |buf| - offset then Some(Box(buf[offset + 4..offset + 8], offset, offset + size)) else None
  }

  /** The boxes from an offset on, up to the first malformed header. */
  function Walk(buf: seq<Byte>, offset: nat): seq<Box>
    decreases |buf| - offset
  {
    var b := BoxAt(buf, offset);
    if b.None? then [] else [b.value] + Walk(buf, b.value.end)
  }

  /** The wrapping bounds check refuses exactly the sizes that do not fit, for
      every 64-bit size: nothing overflows into acceptance or refusal. */
  lemma WrapCheckIsExact(length: nat, offset: nat, size: nat, header: nat)
    requires offset <= length < TWO_63 && size < TWO_64 && 0 < header
    ensures var end := Wrap(offset + Wrap(size));
            (size < header || end > length || end <= offset) <==> !(header <= size <= length - offset)
    ensures header <= size <= length - offset ==> Wrap(offset + Wrap(size)) == offset + size
  {}

  /** The boxes are contiguous and disjoint from the starting offset, each long
      enough for a header and within the buffer. */
  lemma {:induction false} WalkIsContiguous(buf: seq<Byte>, offset: nat, i: nat)
    requires i < |Walk(buf, offset)|
    ensures var w := Walk(buf, offset);
            && w[i].start == (if i == 0 then offset else w[i - 1].end)
            && w[i].start + 8 <= w[i].end <= |buf|
    decreases |buf| - offset
  {
    var b := BoxAt(buf, offset).value;
    if i > 0 { WalkIsContiguous(buf, b.end, i - 1); }
  }

  function First(boxes: seq<Box>, kind: BoxType): Option<Box> {
    if boxes == [] then None else if boxes[0].kind == kind then Some(boxes[0]) else First(boxes[1..], kind)
  }

  lemma FirstFrom(buf: seq<Byte>, offset: nat, kind: BoxType)
    ensures var b := BoxAt(buf, offset);
            First(Walk(buf, offset), kind) ==
            if b.None? then None else if b.value.kind == kind then b else First(Walk(buf, b.value.end), kind)
  {
    hide BoxAt;
    var b := BoxAt(buf, offset);
    if b.Some? { assert Walk(buf, offset)[1..] == Walk(buf, b.value.end); }
  }

  /** walkBoxes with the callback that stops at the first box of a type, in the
      source's 64-bit arithmetic. Every slice below is checked to be in range. */
  method FindBox(buf: seq<Byte>, kind: BoxType) returns (found: Option<Box>)
    requires |buf| < TWO_63 - 16
    ensures found == First(Walk(buf, 0), kind)
  {
    hide Wrap, Get32, Get64, Walk, First;
    var offset := 0;
    WrapInRange(8);
    while Wrap(offset + 8) <= |buf|
      invariant 0 <= offset <= |buf|
      invariant Wrap(offset + 8) == offset + 8
      invariant First(Walk(buf, 0), kind) == First(Walk(buf, offset), kind)
      decreases |buf| - offset
    {
      WrapInRange(offset + 16);
      FirstFrom(buf, offset, kind);
      var size := Get32(buf[offset..offset + 4]);
      var boxType := buf[offset + 4..offset + 8];
      var header := 8;
      if size == 0 {
        size := |buf| - offset;
      } else if size == 1 {
        if Wrap(offset + 16) > |buf| { return None; }
        size := Get64(buf[offset + 8..offset + 16]);
        header := 16;
      }
      WrapCheckIsExact(|buf|, offset, size, header);
      var end := Wrap(offset + Wrap(size));
      if size < header || end > |buf| || end <= offset { return None; }
      if boxType == kind { return Some(Box(boxType, offset, end)); }
      assert BoxAt(buf, offset) == Some(Box(boxType, offset, end));
      offset := end;
      WrapInRange(offset + 8);
    }
    FirstFrom(buf, offset, kind);
    return None;
  }

  // ---- the movie header ----

  const MOOV: BoxType := [0x6D, 0x6F, 0x6F, 0x76]
  const MVHD: BoxType := [0x6D, 0x76, 0x68, 0x64]

  /** Timescale and duration of mvhd content; None is ErrMalformedMedia. */
  function ParseMvhd(content: seq<Byte>): Option<(nat, nat)> {
    if |content| < 1 then None
    else if content[0] == 0 then
      if |content| < 20 then None else Checked(Get32(content[12..16]), Get32(content[16..20]))
    else if content[0] == 1 then
      if |content| < 32 then None else Checked(Get32(content[20..24]), Get64(content[24..32]))
    else None
  }

  function Checked(timescale: nat, duration: nat): Option<(nat, nat)> {
    if timescale == 0 then None else Some((timescale, duration))
  }

  /** The first moov, then the first mvhd in its bytes from offset 8 on, then its content. */
  function Timing(raw: seq<Byte>): Option<(nat, nat)> {
    var moov := First(Walk(raw, 0), MOOV);
    if moov.None? then None
    else
      FirstInRange(raw, 0, MOOV);
      var inner := raw[moov.value.start + 8..moov.value.end];
      var mvhd := First(Walk(inner, 0), MVHD);
      if mvhd.None? then None
      else
        FirstInRange(inner, 0, MVHD);
        ParseMvhd(inner[mvhd.value.start + 8..mvhd.value.end])
  }

  lemma {:induction false} FirstInRange(buf: seq<Byte>, offset: nat, kind: BoxType)
    ensures var r := First(Walk(buf, offset), kind);
            r.Some? ==>
              && r.value.kind == kind && r.value.start + 8 <= r.value.end <= |buf|
              && BoxAt(buf, r.value.start) == r
    decreases |buf| - offset
  {
    var b := BoxAt(buf, offset);
    if b.Some? {
      assert Walk(buf, offset)[1..] == Walk(buf, b.value.end);
      FirstInRange(buf, b.value.end, kind);
    }
  }

  const ULP: real := 1.0 / 9007199254740992.0
  const TINY: real := 1.0 / 4294967296.0
  const TWO_53: int := 0x20_0000_0000_0000

  /** What is used of rounding to the nearest float64 (IEEE 754): it is monotone, exact on integers up to 2^53, and
      off by at most one part in 2^53 on normal numbers. */
  ghost predicate Float64(round: real -> real) {
    && (forall x, y :: x <= y ==> round(x) <= round(y))
    && (forall x: real :: 0.0 <= x <= TWO_53 as real && x.Floor as real == x ==> round(x) == x)
    && (forall x :: x >= TINY ==> round(x) >= x * (1.0 - ULP))
  }

  /** videoDurationSeconds: both operands and the quotient are rounded to float64. */
  method VideoDurationSeconds(raw: seq<Byte>, round: real -> real) returns (seconds: Option<real>)
    requires |raw| < TWO_63 - 16 && Float64(round)
    ensures Timing(raw).None? ==> seconds == None
    ensures Timing(raw).Some? ==>
              var (timescale, duration) := Timing(raw).value;
              && 0 < timescale < TWO_32 && duration < TWO_64 && round(timescale as real) != 0.0
              && seconds == Some(round(round(duration as real) / round(timescale as real)))
  {
    hide Wrap, Get32, Get64, Walk, First, Float64;
    var moov := FindBox(raw, MOOV);
    if moov.None? { return None; }
    FirstInRange(raw, 0, MOOV);
    var inner := raw[moov.value.start + 8..moov.value.end];
    var mvhd := FindBox(inner, MVHD);
    if mvhd.None? { return None; }
    FirstInRange(inner, 0, MVHD);
    var content := raw[moov.value.start + 8 + mvhd.value.start + 8..moov.value.start + 8 + mvhd.value.end];
    SliceOfSlice(raw, moov.value.start + 8, moov.value.end, mvhd.value.start + 8, mvhd.value.end);
    if |content| < 1 { return None; }
    var timescale, duration := 0, 0;
    if content[0] == 0 {
      if |content| < 20 { return None; }
      timescale, duration := Get32(content[12..16]), Get32(content[16..20]);
    } else if content[0] == 1 {
      if |content| < 32 { return None; }
      timescale, duration := Get32(content[20..24]), Get64(content[24..32]);
    } else {
      return None;
    }
    if timescale == 0 { return None; }
    RoundsExactly(round, timescale);
    return Some(round(round(duration as real) / round(timescale as real)));
  }

  lemma FloorOfInt(n: int)
    ensures (n as real).Floor as real == n as real
  {}

  lemma RoundsExactly(round: real -> real, n: nat)
    requires Float64(round) && n <= TWO_53
    ensures round(n as real) == n as real
  {
    FloorOfInt(n);
  }

  // Comparing a quotient with a bound.

  lemma Scales(x: real, y: real, t: real)
    requires x < y && 0.0 < t
    ensures x * t < y * t
  {}

  lemma QuotientAtMost(d: real, t: real, bound: real)
    requires 0.0 < t && d <= bound * t
    ensures d / t <= bound
  {
    var q := d / t;
    assert q * t == d;
    if bound < q { Scales(bound, q, t); }
  }

  lemma QuotientAtLeast(d: real, t: real, bound: real)
    requires 0.0 < t && bound * t <= d
    ensures bound <= d / t
  {
    var q := d / t;
    assert q * t == d;
    if q < bound { Scales(q, bound, t); }
  }

  lemma RoundedAtLeast(round: real -> real, x: real, bound: real)
    requires Float64(round) && TINY <= bound <= x
    ensures bound * (1.0 - ULP) <= round(x)
  {
    assert round(bound) <= round(x);
  }

  const MAX_VIDEO_SECONDS := 30

  datatype VideoAnswer = TooLarge | MalformedVideo | TooLong | Accepted

  /** A quotient over the limit is over it by more than rounding can hide. */
  lemma OverTheLimit(round: real -> real, timescale: nat, duration: nat)
    requires Float64(round) && 0 < timescale < TWO_32 && MAX_VIDEO_SECONDS * timescale < duration
    ensures round(duration as real / timescale as real) > MAX_VIDEO_SECONDS as real
  {
    var d, t := duration as real, timescale as real;
    assert d >= 30.0 * t + 1.0 && TINY * t <= 1.0;
    assert (30.0 + TINY) * t == 30.0 * t + TINY * t;
    QuotientAtLeast(d, t, 30.0 + TINY);
    RoundedAtLeast(round, d / t, 30.0 + TINY);
  }

  lemma WithinTheLimit(round: real -> real, timescale: nat, duration: nat)
    requires Float64(round) && 0 < timescale < TWO_32 && duration <= MAX_VIDEO_SECONDS * timescale
    ensures round(duration as real / timescale as real) <= MAX_VIDEO_SECONDS as real
  {
    QuotientAtMost(duration as real, timescale as real, 30.0);
    RoundsExactly(round, 30);
  }

  lemma HugeQuotient(round: real -> real, timescale: nat, d: real)
    requires Float64(round) && 0 < timescale < TWO_32 && d >= TWO_53 as real
    ensures round(d / timescale as real) > MAX_VIDEO_SECONDS as real
  {
    QuotientAtLeast(d, timescale as real, 31.0);
    RoundsExactly(round, 31);
  }

  lemma PositiveQuotient(round: real -> real, timescale: nat, duration: nat)
    requires Float64(round) && 0 < timescale < TWO_32
    ensures round(duration as real / timescale as real) > 0.0 <==> duration > 0
  {
    var d, t := duration as real, timescale as real;
    if duration == 0 {
      QuotientAtMost(d, t, 0.0);
      RoundsExactly(round, 0);
    } else {
      assert TINY * t <= 1.0;
      QuotientAtLeast(d, t, TINY);
      RoundedAtLeast(round, d / t, TINY);
    }
  }

  /** Rounding never changes what processVideo decides: the rounded quotient is positive, or over the limit, exactly
      when the written duration is. */
  lemma RoundingDecidesNothing(round: real -> real, timescale: nat, duration: nat)
    requires Float64(round) && 0 < timescale < TWO_32
    ensures round(timescale as real) == timescale as real
    ensures var seconds := round(round(duration as real) / round(timescale as real));
            && (seconds > 0.0 <==> duration > 0)
            && (seconds > MAX_VIDEO_SECONDS as real <==> duration > MAX_VIDEO_SECONDS * timescale)
  {
    RoundsExactly(round, timescale);
    if duration <= TWO_53 {
      RoundsExactly(round, duration);
      PositiveQuotient(round, timescale, duration);
      if duration > MAX_VIDEO_SECONDS * timescale { OverTheLimit(round, timescale, duration); }
      else { WithinTheLimit(round, timescale, duration); }
    } else {
      RoundsExactly(round, TWO_53);
      HugeQuotient(round, timescale, round(duration as real));
    }
  }

  /** processVideo: the size limit, then the declared duration; the bytes are stored as they are. */
  method ProcessVideo(raw: seq<Byte>, maxBytes: nat, round: real -> real) returns (r: VideoAnswer)
    requires |raw| < TWO_63 - 16 && Float64(round)
    ensures r == TooLarge <==> |raw| > maxBytes
    ensures r == Accepted <==>
            && |raw| <= maxBytes && Timing(raw).Some?
            && 0 < Timing(raw).value.1 <= 30 * Timing(raw).value.0
    ensures r == TooLong <==>
            && |raw| <= maxBytes && Timing(raw).Some? && Timing(raw).value.1 > 30 * Timing(raw).value.0
  {
    hide Float64, Timing;
    if |raw| > maxBytes { return TooLarge; }
    var seconds := VideoDurationSeconds(raw, round);
    if seconds.None? { return MalformedVideo; }
    RoundingDecidesNothing(round, Timing(raw).value.0, Timing(raw).value.1);
    if seconds.value <= 0.0 { return MalformedVideo; }
    if seconds.value > MAX_VIDEO_SECONDS as real { return TooLong; }
    return Accepted;
  }

  // ---- serialised boxes are walked back ----

  /** How a box declares its size. */
  datatype Form = Compact | Large | ToEnd

  datatype Content = Content(kind: BoxType, form: Form, payload: seq<Byte>)

  function HeaderSize(c: Content): nat { if c.form == Large then 16 else 8 }

  function SizeOf(c: Content): nat { HeaderSize(c) + |c.payload| }

  predicate Writable(c: Content) { if c.form == Compact then SizeOf(c) < TWO_32 else SizeOf(c) < TWO_64 }

  function Serialise(c: Content): (s: seq<Byte>)
    requires Writable(c)
    ensures |s| == SizeOf(c)
  {
    match c.form
    case Compact => Put32(SizeOf(c)) + c.kind + c.payload
    case Large => Put32(1) + c.kind + Put64(SizeOf(c)) + c.payload
    case ToEnd => Put32(0) + c.kind + c.payload
  }

  /** Only the last box of a list may run to the end. */
  ghost predicate WritableList(cs: seq<Content>) {
    forall i :: 0 <= i < |cs| ==> Writable(cs[i]) && (cs[i].form == ToEnd ==> i == |cs| - 1)
  }

  function SerialiseAll(cs: seq<Content>): seq<Byte>
    requires forall i :: 0 <= i < |cs| ==> Writable(cs[i])
  {
    if cs == [] then [] else Serialise(cs[0]) + SerialiseAll(cs[1..])
  }

  /** Where the boxes of a list lie when written from an offset on. */
  function Layout(cs: seq<Content>, offset: nat): seq<Box> {
    if cs == [] then [] else [Box(cs[0].kind, offset, offset + SizeOf(cs[0]))] + Layout(cs[1..], offset + SizeOf(cs[0]))
  }

  /** A buffer that continues with the bytes of c (to its very end, if c runs to the end) has c's box there. */
  lemma BoxReadBack(buf: seq<Byte>, offset: nat, c: Content)
    requires Writable(c) && offset + SizeOf(c) <= |buf| && buf[offset..offset + SizeOf(c)] == Serialise(c)
    requires c.form == ToEnd ==> offset + SizeOf(c) == |buf|
    ensures BoxAt(buf, offset) == Some(Box(c.kind, offset, offset + SizeOf(c)))
  {
    hide Put32, Put64, Get32, Get64;
    var s := Serialise(c);
    SliceOfSlice(buf, offset, offset + SizeOf(c), 0, 4);
    SliceOfSlice(buf, offset, offset + SizeOf(c), 4, 8);
    assert s[4..8] == c.kind;
    match c.form
    case Compact =>
      Get32Put32(SizeOf(c));
      assert s[..4] == Put32(SizeOf(c));
    case Large =>
      Get32Put32(1);
      Get64Put64(SizeOf(c));
      assert s[..4] == Put32(1);
      SliceOfSlice(buf, offset, offset + SizeOf(c), 8, 16);
      assert s[8..16] == Put64(SizeOf(c));
    case ToEnd =>
      Get32Put32(0);
      assert s[..4] == Put32(0);
  }

  lemma WalkFromEnd(buf: seq<Byte>)
    ensures Walk(buf, |buf|) == []
  {
    hide Get32, Get64;
  }

  /** The bytes of a list's first box, and what is left after it. */
  lemma FirstBytes(buf: seq<Byte>, offset: nat, cs: seq<Content>)
    requires WritableList(cs) && cs != [] && offset <= |buf| && buf[offset..] == SerialiseAll(cs)
    ensures var next := offset + SizeOf(cs[0]);
            next <= |buf| && buf[offset..next] == Serialise(cs[0]) && buf[next..] == SerialiseAll(cs[1..])
  {
    hide Serialise;
    var n, tail := SizeOf(cs[0]), SerialiseAll(cs[1..]);
    var all := buf[offset..];
    assert all == Serialise(cs[0]) + tail;
    assert buf[offset..] == buf[offset..|buf|];
    SliceOfSlice(buf, offset, |buf|, 0, n);
    SliceOfSlice(buf, offset, |buf|, n, |all|);
    assert all[0..n] == Serialise(cs[0]) && all[n..|all|] == tail;
  }

  lemma {:induction false} WalkReadsLayout(buf: seq<Byte>, offset: nat, cs: seq<Content>)
    requires WritableList(cs) && offset <= |buf| && buf[offset..] == SerialiseAll(cs)
    ensures Walk(buf, offset) == Layout(cs, offset)
    decreases |cs|
  {
    hide Serialise, BoxAt;
    if cs == [] {
      WalkFromEnd(buf);
    } else {
      var c, next := cs[0], offset + SizeOf(cs[0]);
      FirstBytes(buf, offset, cs);
      if c.form == ToEnd { assert cs[1..] == []; }
      BoxReadBack(buf, offset, c);
      WalkReadsLayout(buf, next, cs[1..]);
    }
  }

  /** Any serialised box list, in any mix of size forms, is walked back exactly. */
  lemma SerialisedListIsWalked(cs: seq<Content>)
    requires WritableList(cs)
    ensures Walk(SerialiseAll(cs), 0) == Layout(cs, 0)
  {
    var buf := SerialiseAll(cs);
    assert buf[0..] == buf;
    WalkReadsLayout(buf, 0, cs);
  }

  // ---- durations written are the ones read back ----

  /** A movie header box: version 0 with 32-bit or version 1 with 64-bit times. */
  datatype MovieHeader =
    | Version0(flags: seq<Byte>, times: seq<Byte>, timescale: nat, duration: nat, rest: seq<Byte>)
    | Version1(flags: seq<Byte>, times: seq<Byte>, timescale: nat, duration: nat, rest: seq<Byte>)

  predicate ValidHeader(h: MovieHeader) {
    && |h.flags| == 3 && 0 < h.timescale < TWO_32
    && (match h
        case Version0(_, times, _, duration, _) => |times| == 8 && duration < TWO_32
        case Version1(_, times, _, duration, _) => |times| == 16 && duration < TWO_64)
  }

  function HeaderBytes(h: MovieHeader): seq<Byte>
    requires ValidHeader(h)
  {
    match h
    case Version0(flags, times, timescale, duration, rest) =>
      [0] + flags + times + Put32(timescale) + Put32(duration) + rest
    case Version1(flags, times, timescale, duration, rest) =>
      [1] + flags + times + Put32(timescale) + Put64(duration) + rest
  }

  lemma HeaderReadBack(h: MovieHeader)
    requires ValidHeader(h)
    ensures ParseMvhd(HeaderBytes(h)) == Some((h.timescale, h.duration))
  {
    hide Put32, Put64, Get32, Get64;
    var s := HeaderBytes(h);
    Get32Put32(h.timescale);
    match h
    case Version0(_, _, timescale, duration, _) =>
      Get32Put32(duration);
      assert s[12..16] == Put32(timescale);
      assert s[16..20] == Put32(duration);
    case Version1(_, _, timescale, duration, _) =>
      Get64Put64(duration);
      assert s[20..24] == Put32(timescale);
      assert s[24..32] == Put64(duration);
  }

  /** c is the first content of its kind in the list. */
  ghost predicate FirstOf(cs: seq<Content>, i: nat, kind: BoxType) {
    i < |cs| && cs[i].kind == kind && forall k :: 0 <= k < i ==> cs[k].kind != kind
  }

  function Offset(cs: seq<Content>, i: nat): nat
    requires i <= |cs|
  {
    if i == 0 then 0 else Offset(cs, i - 1) + SizeOf(cs[i - 1])
  }

  lemma {:induction false} OffsetSplits(cs: seq<Content>, i: nat)
    requires 0 < i <= |cs|
    ensures Offset(cs, i) == SizeOf(cs[0]) + Offset(cs[1..], i - 1)
  {
    if i > 1 { OffsetSplits(cs, i - 1); }
  }

  lemma {:induction false} FirstInLayout(cs: seq<Content>, i: nat, kind: BoxType, offset: nat)
    requires FirstOf(cs, i, kind)
    ensures First(Layout(cs, offset), kind) ==
            Some(Box(kind, offset + Offset(cs, i), offset + Offset(cs, i) + SizeOf(cs[i])))
    decreases |cs|
  {
    if i > 0 {
      OffsetSplits(cs, i);
      FirstInLayout(cs[1..], i - 1, kind, offset + SizeOf(cs[0]));
      assert Layout(cs, offset)[1..] == Layout(cs[1..], offset + SizeOf(cs[0]));
    }
  }

  lemma {:induction false} ContentInPlace(cs: seq<Content>, i: nat)
    requires i < |cs| && forall k :: 0 <= k < |cs| ==> Writable(cs[k])
    ensures Offset(cs, i) + SizeOf(cs[i]) <= |SerialiseAll(cs)|
    ensures SerialiseAll(cs)[Offset(cs, i)..Offset(cs, i) + SizeOf(cs[i])] == Serialise(cs[i])
    decreases |cs|
  {
    hide Serialise;
    var s, tail, n := SerialiseAll(cs), SerialiseAll(cs[1..]), SizeOf(cs[0]);
    assert s == Serialise(cs[0]) + tail;
    if i == 0 {
      assert s[..n] == Serialise(cs[0]);
    } else {
      var at := Offset(cs[1..], i - 1);
      OffsetSplits(cs, i);
      ContentInPlace(cs[1..], i - 1);
      assert s[n..] == tail;
      SliceOfSlice(s, n, |s|, at, at + SizeOf(cs[i]));
      assert s[n + at..n + at + SizeOf(cs[i])] == tail[at..at + SizeOf(cs[i])];
    }
  }

  lemma ShortHeaderPayload(c: Content)
    requires Writable(c) && c.form != Large
    ensures Serialise(c)[8..] == c.payload
  {
    hide Put32;
  }

  lemma LargeHeaderPayload(c: Content)
    requires Writable(c) && c.form == Large
    ensures Serialise(c)[8..] == Put64(SizeOf(c)) + c.payload
  {
    hide Put32, Put64;
  }

  /** In a serialised list, the first box of a kind is found, and its bytes from offset 8 on are the written ones. */
  lemma BodyFound(cs: seq<Content>, i: nat, kind: BoxType)
    requires WritableList(cs) && FirstOf(cs, i, kind)
    ensures var raw := SerialiseAll(cs);
            var found := First(Walk(raw, 0), kind);
            && found == Some(Box(kind, Offset(cs, i), Offset(cs, i) + SizeOf(cs[i])))
            && found.value.end <= |raw|
            && raw[found.value.start..found.value.end] == Serialise(cs[i])
            && raw[found.value.start + 8..found.value.end] == Serialise(cs[i])[8..]
  {
    hide Walk, First, Serialise;
    var raw, at := SerialiseAll(cs), Offset(cs, i);
    SerialisedListIsWalked(cs);
    FirstInLayout(cs, i, kind, 0);
    ContentInPlace(cs, i);
    SliceOfSlice(raw, at, at + SizeOf(cs[i]), 8, SizeOf(cs[i]));
  }

  /** A file whose first moov holds the boxes `inside`, whose first mvhd is h's. */
  ghost predicate Movie(file: seq<Content>, i: nat, inside: seq<Content>, j: nat, h: MovieHeader) {
    && WritableList(file) && FirstOf(file, i, MOOV)
    && WritableList(inside) && file[i].payload == SerialiseAll(inside)
    && FirstOf(inside, j, MVHD) && ValidHeader(h) && inside[j].payload == HeaderBytes(h)
  }

  lemma TimingIsInside(file: seq<Content>, i: nat, inside: seq<Content>, j: nat, h: MovieHeader)
    requires Movie(file, i, inside, j, h) && file[i].form != Large
    ensures Timing(SerialiseAll(file)) == ParseMvhd(Serialise(inside[j])[8..])
  {
    hide Walk, First, SerialiseAll, Serialise, HeaderBytes, ParseMvhd;
    BodyFound(file, i, MOOV);
    ShortHeaderPayload(file[i]);
    BodyFound(inside, j, MVHD);
  }

  /** For any serialised file whose first moov and whose first mvhd inside it
      have 8-byte headers, whatever surrounds them, the timescale and duration
      written are the ones read. */
  lemma DurationReadBack(file: seq<Content>, i: nat, inside: seq<Content>, j: nat, h: MovieHeader)
    requires Movie(file, i, inside, j, h) && file[i].form != Large && inside[j].form != Large
    ensures Timing(SerialiseAll(file)) == Some((h.timescale, h.duration))
  {
    hide SerialiseAll, Serialise, HeaderBytes, ParseMvhd, Timing;
    TimingIsInside(file, i, inside, j, h);
    ShortHeaderPayload(inside[j]);
    HeaderReadBack(h);
  }

  // ---- an mvhd with a 16-byte header ----

  function Creation(h: MovieHeader): nat
    requires ValidHeader(h)
  {
    match h
    case Version0(_, times, _, _, _) => Get32(times[..4])
    case Version1(_, times, _, _, _) => Get64(times[..8])
  }

  function Modification(h: MovieHeader): nat
    requires ValidHeader(h)
  {
    match h
    case Version0(_, times, _, _, _) => Get32(times[4..8])
    case Version1(_, times, _, _, _) => Get64(times[8..16])
  }

  /** What is read when the 64-bit size stands where the version and the first times are looked for. */
  function Misread(h: MovieHeader): Option<(nat, nat)>
    requires ValidHeader(h)
  {
    if h.Version0? then Checked(Creation(h), Modification(h))
    else Checked(Creation(h) / TWO_32, Creation(h) % TWO_32)
  }

  lemma MisreadTimes(h: MovieHeader)
    requires ValidHeader(h)
    ensures Misread(h) == Checked(Get32(h.times[..4]), Get32(h.times[4..8]))
  {
    hide Get32;
    if h.Version1? { assert h.times[..8][..4] == h.times[..4] && h.times[..8][4..] == h.times[4..8]; }
  }

  lemma HeaderStart(h: MovieHeader)
    requires ValidHeader(h)
    ensures |HeaderBytes(h)| >= 20 && HeaderBytes(h)[4..8] == h.times[..4] && HeaderBytes(h)[8..12] == h.times[4..8]
  {
    hide Put32, Put64;
    var s := HeaderBytes(h);
    var start := [s[0]] + h.flags + h.times;
    assert s[..|start|] == start;
    assert start[4..8] == h.times[..4] && start[8..12] == h.times[4..8];
  }

  lemma LargeHeaderMisread(c: Content, h: MovieHeader)
    requires Writable(c) && c.form == Large && SizeOf(c) < TWO_32 && ValidHeader(h) && c.payload == HeaderBytes(h)
    ensures ParseMvhd(Serialise(c)[8..]) == Misread(h)
  {
    hide Get32, HeaderBytes, Serialise, Misread, Checked;
    var size, s := Put64(SizeOf(c)), Serialise(c)[8..];
    LargeHeaderPayload(c);
    assert size[0] == 0;
    HeaderStart(h);
    MisreadTimes(h);
    assert s == size + c.payload;
    assert s[12..16] == c.payload[4..8] && s[16..20] == c.payload[8..12];
  }

  lemma InsideIsSmaller(file: seq<Content>, i: nat, inside: seq<Content>, j: nat, h: MovieHeader)
    requires Movie(file, i, inside, j, h)
    ensures SizeOf(inside[j]) <= SizeOf(file[i]) <= |SerialiseAll(file)|
  {
    hide SerialiseAll, Serialise;
    ContentInPlace(file, i);
    ContentInPlace(inside, j);
  }

  /** An mvhd with a 16-byte header, which the format allows, is not refused: version 0 reads the
      creation time as timescale and the modification time as duration, version 1 the two halves of
      the creation time. */
  lemma LargeMvhdMisread(file: seq<Content>, i: nat, inside: seq<Content>, j: nat, h: MovieHeader)
    requires Movie(file, i, inside, j, h) && |SerialiseAll(file)| < TWO_32
    requires file[i].form != Large && inside[j].form == Large
    ensures Timing(SerialiseAll(file)) == Misread(h)
  {
    hide SerialiseAll, Serialise, HeaderBytes, ParseMvhd, Timing, Misread;
    InsideIsSmaller(file, i, inside, j, h);
    TimingIsInside(file, i, inside, j, h);
    LargeHeaderMisread(inside[j], h);
  }

  // ---- a moov with a 16-byte header ----

  /** Bytes 8 to 16 of such a box hold its 64-bit size, and the walk inside
      starts on them. In a buffer under 4 GiB they read as one box that runs to
      the end and whose type is the low half of that size. */
  lemma LargeHeaderReadAsBox(raw: seq<Byte>, moov: Box)
    requires |raw| < TWO_32 && BoxAt(raw, moov.start) == Some(moov) && Get32(raw[moov.start..moov.start + 4]) == 1
    ensures moov.start + 16 <= moov.end <= |raw| && moov.end - moov.start == Get64(raw[moov.start + 8..moov.start + 16])
    ensures var inner := raw[moov.start + 8..moov.end];
            Walk(inner, 0) == [Box(raw[moov.start + 12..moov.start + 16], 0, |inner|)]
  {
    hide Walk;
    var inner := raw[moov.start + 8..moov.end];
    var size := raw[moov.start + 8..moov.start + 16];
    HighHalfIsZero(size);
    SliceOfSlice(raw, moov.start + 8, moov.end, 0, 4);
    SliceOfSlice(raw, moov.start + 8, moov.end, 4, 8);
    SliceOfSlice(raw, moov.start + 8, moov.start + 16, 0, 4);
    assert BoxAt(inner, 0) == Some(Box(raw[moov.start + 12..moov.start + 16], 0, |inner|));
    WalkOfWhole(inner);
  }

  lemma HighHalfIsZero(s: seq<Byte>)
    requires |s| == 8 && Get64(s) < TWO_32
    ensures Get32(s[..4]) == 0
  {
    hide Get32;
  }

  lemma WalkOfWhole(buf: seq<Byte>)
    requires BoxAt(buf, 0).Some? && BoxAt(buf, 0).value.end == |buf|
    ensures Walk(buf, 0) == [BoxAt(buf, 0).value]
  {
    hide Get32, Get64;
    assert BoxAt(buf, |buf|).None?;
    assert Walk(buf, |buf|) == [];
  }

  /** So a file whose first moov has a 16-byte header is refused as malformed,
      although the format allows it, unless that moov's size is 0x6D766864, the
      ASCII of "mvhd" (about 1.8 GB): then everything after its header is read as mvhd content. */
  lemma LargeMoovRefused(raw: seq<Byte>)
    requires |raw| < TWO_32 && First(Walk(raw, 0), MOOV).Some?
    requires var m := First(Walk(raw, 0), MOOV).value; m.start + 8 <= |raw| && Get32(raw[m.start..m.start + 4]) == 1
    ensures var m := First(Walk(raw, 0), MOOV).value;
            && m.start + 16 <= m.end <= |raw|
            && Timing(raw) == if m.end - m.start == 0x6D766864 then ParseMvhd(raw[m.start + 16..m.end]) else None
  {
    hide Walk, First, BoxAt, Get32, Get64, Timing, ParseMvhd;
    var m := First(Walk(raw, 0), MOOV).value;
    FirstInRange(raw, 0, MOOV);
    LargeHeaderReadAsBox(raw, m);
    var size := raw[m.start + 8..m.start + 16];
    SliceOfSlice(raw, m.start + 8, m.start + 16, 4, 8);
    var kind := size[4..8];
    assert |kind| == 4;
    TimingOfOneBox(raw, m, kind);
    SizeSpellsMvhd(size);
  }

  lemma TimingOfOneBox(raw: seq<Byte>, m: Box, kind: BoxType)
    requires First(Walk(raw, 0), MOOV) == Some(m) && m.start + 16 <= m.end <= |raw|
    requires var inner := raw[m.start + 8..m.end]; Walk(inner, 0) == [Box(kind, 0, |inner|)]
    ensures Timing(raw) == if kind == MVHD then ParseMvhd(raw[m.start + 16..m.end]) else None
  {
    hide Walk, First, ParseMvhd;
    var inner := raw[m.start + 8..m.end];
    FirstOfOne(Box(kind, 0, |inner|), MVHD);
    SliceOfSlice(raw, m.start + 8, m.end, 8, |inner|);
  }

  lemma FirstOfOne(b: Box, kind: BoxType)
    ensures First([b], kind) == if b.kind == kind then Some(b) else None
  {}

  lemma SizeSpellsMvhd(s: seq<Byte>)
    requires |s| == 8 && Get64(s) < TWO_32
    ensures s[4..8] == MVHD <==> Get64(s) == 0x6D766864
  {
    HighHalfIsZero(s);
    assert s[4..] == s[4..8];
    if Get64(s) == 0x6D766864 { BytesOfMvhd(s[4], s[5], s[6], s[7]); }
  }

  lemma BytesOfMvhd(a: Byte, b: Byte, c: Byte, d: Byte)
    requires a as int * 0x100_0000 + b as int * 0x1_0000 + c as int * 0x100 + d as int == 0x6D766864
    ensures a == 0x6D && b == 0x76 && c == 0x68 && d == 0x64
  {}

  lemma LargeMoovWritten(file: seq<Content>, i: nat)
    requires WritableList(file) && FirstOf(file, i, MOOV) && file[i].form == Large && |SerialiseAll(file)| < TWO_32
    ensures Timing(SerialiseAll(file)) == if SizeOf(file[i]) == 0x6D766864 then ParseMvhd(file[i].payload) else None
  {
    hide Walk, First, Timing, SerialiseAll, ParseMvhd;
    var raw, at := SerialiseAll(file), Offset(file, i);
    BodyFound(file, i, MOOV);
    SliceOfSlice(raw, at, at + SizeOf(file[i]), 0, 4);
    SliceOfSlice(raw, at, at + SizeOf(file[i]), 16, SizeOf(file[i]));
    assert Serialise(file[i])[0..4] == Put32(1) && Serialise(file[i])[16..] == file[i].payload;
    Get32Put32(1);
    hide Serialise, Put32, Get32;
    LargeMoovRefused(raw);
  }

  /** Under 4 GiB the duration written is the one read exactly when moov and mvhd both have 8-byte headers,
      but for the numbers that the misread bytes happen to spell. */
  lemma DurationReadIff(file: seq<Content>, i: nat, inside: seq<Content>, j: nat, h: MovieHeader)
    requires Movie(file, i, inside, j, h) && |SerialiseAll(file)| < TWO_32
    ensures Timing(SerialiseAll(file)) == Some((h.timescale, h.duration)) <==>
            if file[i].form == Large
            then SizeOf(file[i]) == 0x6D766864 && ParseMvhd(file[i].payload) == Some((h.timescale, h.duration))
            else inside[j].form != Large || Misread(h) == Some((h.timescale, h.duration))
  {
    hide SerialiseAll, Serialise, HeaderBytes, ParseMvhd, Timing, Misread;
    if file[i].form == Large { LargeMoovWritten(file, i); }
    else if inside[j].form == Large { LargeMvhdMisread(file, i, inside, j, h); }
    else { DurationReadBack(file, i, inside, j, h); }
  }

  /** Created and last modified at once; an hour long. */
  const HOUR_LONG := Version0([0, 0, 0], Put32(3_800_000_000) + Put32(3_800_000_000), 1000, 3_600_000, [])
  const LARGE_MVHD := Content(MVHD, Large, HeaderBytes(HOUR_LONG))

  /** So a file an hour long is read as one second long, within the limit that its own header breaks. */
  lemma HourReadAsSecond() returns (file: seq<Content>)
    ensures WritableList(file) && Timing(SerialiseAll(file)) == Some((3_800_000_000, 3_800_000_000))
    ensures Movie(file, 0, [LARGE_MVHD], 0, HOUR_LONG) && HOUR_LONG.duration == 3600 * HOUR_LONG.timescale
  {
    hide Put32, Put64, Get32, Timing, ParseMvhd;
    var inside := [LARGE_MVHD];
    assert SizeOf(LARGE_MVHD) == 36;
    SingleSerialised(LARGE_MVHD);
    file := [Content(MOOV, Compact, SerialiseAll(inside))];
    SingleSerialised(file[0]);
    LargeMvhdMisread(file, 0, inside, 0, HOUR_LONG);
    Get32Put32(3_800_000_000);
    assert HOUR_LONG.times[..4] == Put32(3_800_000_000) && HOUR_LONG.times[4..8] == Put32(3_800_000_000);
  }

  lemma SingleSerialised(c: Content)
    requires Writable(c)
    ensures |SerialiseAll([c])| == SizeOf(c)
  {
    assert [c][1..] == [];
    assert SerialiseAll([c]) == Serialise(c) + SerialiseAll([]);
  }
}
