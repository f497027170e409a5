/** The Exif orientation lookup (section 4.6.4 of Exif 2.32 inside the TIFF 6.0
    structure of its section 2), over any bytes. */
module Exif {
  import opened Collections
  import opened Sql
  import opened Cursors

  const ORIENTATION: int := 0x0112
  const EXIF: Text := [0x45, 0x78, 0x69, 0x66, 0, 0]

  datatype Order = Little | Big

  function Get16(s: Text, order: Order): (n: nat)
    requires |s| == 2
    ensures n < 0x1_0000
  {
    if order == Big then s[0] as int * 0x100 + s[1] as int else s[1] as int * 0x100 + s[0] as int
  }

  function Get32(s: Text, order: Order): (n: nat)
    requires |s| == 4
    ensures n < 0x1_0000_0000
  {
    if order == Big then Get16(s[..2], Big) * 0x1_0000 + Get16(s[2..], Big)
    else Get16(s[2..], Little) * 0x1_0000 + Get16(s[..2], Little)
  }

  // ---- specification ----

  /** The value of the first orientation entry among entries i..count of the IFD
      at base, if the scan reaches it inside the bytes and it is 1 to 8. */
  function ScanEntries(tiff: Text, order: Order, base: nat, i: nat, count: nat): (r: Option<nat>)
    ensures r.Some? ==> 1 <= r.value <= 8
    decreases count - i
  {
    var at := base + i * 12;
    if i >= count || at + 12 > |tiff| then None
    else if Get16(tiff[at..at + 2], order) != ORIENTATION then ScanEntries(tiff, order, base, i + 1, count)
    else
      var value := Get16(tiff[at + 8..at + 10], order);
      if 1 <= value <= 8 then Some(value) else None
  }

  function TiffOrientation(tiff: Text, order: Order): (r: Option<nat>)
    requires |tiff| >= 8
    ensures r.Some? ==> 1 <= r.value <= 8
  {
    var ifd := Get32(tiff[4..8], order);
    if Get16(tiff[2..4], order) != 42 || ifd + 2 > |tiff| then None
    else ScanEntries(tiff, order, ifd + 2, 0, Get16(tiff[ifd..ifd + 2], order))
  }

  function ByteOrder(mark: Text): Option<Order> {
    if mark == [0x49, 0x49] then Some(Little) else if mark == [0x4D, 0x4D] then Some(Big) else None
  }

  function App1Orientation(payload: Text): (r: Option<nat>)
    ensures r.Some? ==> 1 <= r.value <= 8
  {
    if |payload| < 14 || payload[..6] != EXIF then None
    else
      var tiff := payload[6..];
      var order := ByteOrder(tiff[..2]);
      if order.None? then None else TiffOrientation(tiff, order.value)
  }

  /** The marker segments from an offset on: the first usable orientation, else 1. */
  function ScanMarkers(raw: Text, offset: nat): (r: nat)
    ensures 1 <= r <= 8
    decreases |raw| - offset
  {
    if offset + 4 > |raw| || raw[offset] != 0xFF || raw[offset + 1] == 0xDA then 1
    else
      var length := Get16(raw[offset + 2..offset + 4], Big);
      if length < 2 || offset + 2 + length > |raw| then 1
      else
        var found := if raw[offset + 1] == 0xE1 then App1Orientation(raw[offset + 4..offset + 2 + length]) else None;
        if found.Some? && 1 <= found.value <= 8 then found.value else ScanMarkers(raw, offset + 2 + length)
  }

  function Orientation(raw: Text): (r: nat)
    ensures 1 <= r <= 8
  {
    if |raw| < 4 || raw[0] != 0xFF || raw[1] != 0xD8 then 1 else ScanMarkers(raw, 2)
  }

  // ---- the two scans, as loops ----

  /** exifOrientationFromAPP1: every index below is checked to be in range, on any bytes. */
  method ExifOrientationFromApp1(payload: Text) returns (value: nat, ok: bool)
    ensures ok <==> App1Orientation(payload).Some?
    ensures ok ==> App1Orientation(payload) == Some(value) && 1 <= value <= 8
  {
    hide Get16, Get32;
    if |payload| < 8 || payload[0..6] != EXIF { return 0, false; }
    var tiff := payload[6..];
    if |tiff| < 8 { return 0, false; }
    var order: Order;
    if tiff[0..2] == [0x49, 0x49] {
      order := Little;
    } else if tiff[0..2] == [0x4D, 0x4D] {
      order := Big;
    } else {
      return 0, false;
    }
    if Get16(tiff[2..4], order) != 42 { return 0, false; }
    var ifdOffset := Get32(tiff[4..8], order);
    if ifdOffset + 2 > |tiff| { return 0, false; }
    var entryCount := Get16(tiff[ifdOffset..ifdOffset + 2], order);
    var base := ifdOffset + 2;
    var i := 0;
    while i < entryCount
      invariant i <= entryCount
      invariant App1Orientation(payload) == ScanEntries(tiff, order, base, i, entryCount)
    {
      var entryOffset := base + i * 12;
      if entryOffset + 12 > |tiff| { return 0, false; }
      if Get16(tiff[entryOffset..entryOffset + 2], order) == ORIENTATION {
        value := Get16(tiff[entryOffset + 8..entryOffset + 10], order);
        if value < 1 || value > 8 { return 0, false; }
        return value, true;
      }
      i := i + 1;
    }
    return 0, false;
  }

  /** jpegExifOrientation */
  method JpegExifOrientation(raw: Text) returns (orientation: nat)
    ensures orientation == Orientation(raw) && 1 <= orientation <= 8
  {
    hide Get16, App1Orientation;
    if |raw| < 4 || raw[0] != 0xFF || raw[1] != 0xD8 { return 1; }
    var offset := 2;
    while offset + 4 <= |raw|
      invariant offset >= 2 && Orientation(raw) == ScanMarkers(raw, offset)
      decreases |raw| - offset
    {
      if raw[offset] != 0xFF { return 1; }
      var marker := raw[offset + 1];
      if marker == 0xDA { return 1; }
      var segmentLen := Get16(raw[offset + 2..offset + 4], Big);
      if segmentLen < 2 || offset + 2 + segmentLen > |raw| { return 1; }
      if marker == 0xE1 {
        var value, ok := ExifOrientationFromApp1(raw[offset + 4..offset + 2 + segmentLen]);
        if ok { return value; }
      }
      offset := offset + 2 + segmentLen;
    }
    return 1;
  }

  // ---- what the scans find, on any bytes ----

  /** Tag and value of entry k of the IFD whose entries start at base, if it lies inside the bytes. */
  function EntryAt(tiff: Text, order: Order, base: nat, k: nat): Option<(nat, nat)> {
    var at := base + k * 12;
    if at + 12 > |tiff| then None
    else Some((Get16(tiff[at..at + 2], order), Get16(tiff[at + 8..at + 10], order)))
  }

  /** Entry k carries the orientation tag with value v, and entries i..k lie inside without the tag. */
  ghost predicate FirstTagged(tiff: Text, order: Order, base: nat, i: nat, k: nat, v: nat) {
    && i <= k && EntryAt(tiff, order, base, k) == Some((0x0112, v))
    && forall j: nat :: i <= j < k ==>
         EntryAt(tiff, order, base, j).Some? && EntryAt(tiff, order, base, j).value.0 != 0x0112
  }

  /** The first entry with the tag among entries i..count has this value, 1 to 8. */
  ghost predicate Orientated(tiff: Text, order: Order, base: nat, i: nat, count: nat, v: nat) {
    1 <= v <= 8 && exists k: nat :: k < count && FirstTagged(tiff, order, base, i, k, v)
  }

  /** A later entry does not make up for a bad first one. */
  lemma {:induction false} ScanEntriesExact(tiff: Text, order: Order, base: nat, i: nat, count: nat, v: nat)
    ensures ScanEntries(tiff, order, base, i, count) == Some(v) <==> Orientated(tiff, order, base, i, count, v)
    decreases count - i
  {
    hide Get16;
    var here := EntryAt(tiff, order, base, i);
    if i < count && here.Some? {
      if here.value.0 == ORIENTATION {
        assert FirstTagged(tiff, order, base, i, i, here.value.1);
      } else {
        ScanEntriesExact(tiff, order, base, i + 1, count, v);
        var n := i + 1;
        forall k: nat ensures FirstTagged(tiff, order, base, i, k, v) <==> FirstTagged(tiff, order, base, n, k, v) {}
      }
    }
  }

  /** The identifier and the first four bytes of the TIFF header, in one of its two byte orders. */
  predicate StartsExif(payload: Text, order: Order) {
    && |payload| >= 14 && payload[..6] == EXIF
    && payload[6..10] == (if order == Little then [0x49, 0x49, 42, 0] else [0x4D, 0x4D, 0, 42])
  }

  /** The first orientation entry of IFD0, which the header's offset points to, has this value, 1 to 8. */
  ghost predicate Ifd0Orientated(tiff: Text, order: Order, v: nat)
    requires |tiff| >= 8
  {
    var ifd := Get32(tiff[4..8], order);
    ifd + 2 <= |tiff| && Orientated(tiff, order, ifd + 2, 0, Get16(tiff[ifd..ifd + 2], order), v)
  }

  lemma HeaderMeans(payload: Text, order: Order)
    requires |payload| >= 14 && payload[..6] == EXIF
    ensures var tiff := payload[6..];
            StartsExif(payload, order) <==> ByteOrder(tiff[..2]) == Some(order) && Get16(tiff[2..4], order) == 42
  {
    var four, tiff := payload[6..10], payload[6..];
    assert four == tiff[..2] + tiff[2..4] && tiff[..2] == [four[0], four[1]] && tiff[2..4] == [four[2], four[3]];
  }

  lemma App1Exact(payload: Text, v: nat)
    ensures App1Orientation(payload) == Some(v) <==>
            || (StartsExif(payload, Little) && Ifd0Orientated(payload[6..], Little, v))
            || (StartsExif(payload, Big) && Ifd0Orientated(payload[6..], Big, v))
  {
    hide Get16, Get32, ScanEntries, Orientated;
    if |payload| >= 14 && payload[..6] == EXIF {
      var tiff := payload[6..];
      HeaderMeans(payload, Little);
      HeaderMeans(payload, Big);
      hide StartsExif;
      var order := ByteOrder(tiff[..2]);
      if order.Some? && Get32(tiff[4..8], order.value) + 2 <= |tiff| {
        var ifd := Get32(tiff[4..8], order.value);
        ScanEntriesExact(tiff, order.value, ifd + 2, 0, Get16(tiff[ifd..ifd + 2], order.value), v);
      }
    }
  }

  /** The length field of the marker segment at an offset, if the segment is not the start of scan and lies
      whole inside the bytes. */
  function SegmentLength(raw: Text, offset: nat): (n: Option<nat>)
    ensures n.Some? ==> n.value >= 2 && offset + 2 + n.value <= |raw|
  {
    if offset + 4 > |raw| || raw[offset] != 0xFF || raw[offset + 1] == 0xDA then None
    else
      var n := raw[offset + 2] as int * 0x100 + raw[offset + 3] as int;
      if 2 <= n <= |raw| - offset - 2 then Some(n) else None
  }

  /** The orientation an APP1 segment holds. */
  function HeldBy(raw: Text, offset: nat): Option<nat> {
    var n := SegmentLength(raw, offset);
    if n.Some? && raw[offset + 1] == 0xE1 then App1Orientation(raw[offset + 4..offset + 2 + n.value]) else None
  }

  /** Consecutive segments, none of which holds an orientation; the last offset is where the next one would start. */
  ghost predicate Passed(raw: Text, offsets: seq<nat>) {
    forall i :: 0 <= i < |offsets| - 1 ==>
      && SegmentLength(raw, offsets[i]).Some? && HeldBy(raw, offsets[i]) == None
      && offsets[i + 1] == offsets[i] + 2 + SegmentLength(raw, offsets[i]).value
  }

  /** The scan passes segments without an orientation up to the first with one, whose it returns, or up to where
      no segment starts, and then returns 1. */
  lemma {:induction false} ScanMarkersExact(raw: Text, offset: nat) returns (offsets: seq<nat>)
    ensures offsets != [] && offsets[0] == offset && Passed(raw, offsets)
    ensures var last := offsets[|offsets| - 1];
            if HeldBy(raw, last).Some? then HeldBy(raw, last) == Some(ScanMarkers(raw, offset))
            else SegmentLength(raw, last) == None && ScanMarkers(raw, offset) == 1
    decreases |raw| - offset
  {
    hide App1Orientation;
    var n := SegmentLength(raw, offset);
    if n == None || HeldBy(raw, offset).Some? {
      offsets := [offset];
    } else {
      var rest := ScanMarkersExact(raw, offset + 2 + n.value);
      offsets := [offset] + rest;
    }
  }

  predicate StartsJpeg(raw: Text) { |raw| >= 4 && raw[..2] == [0xFF, 0xD8] }

  /** A JPEG's orientation is that of its first segment with one; without one before the scan starts, and for
      any other bytes, it is 1. */
  lemma OrientationExact(raw: Text) returns (offsets: seq<nat>)
    ensures !StartsJpeg(raw) ==> Orientation(raw) == 1
    ensures StartsJpeg(raw) ==>
              && offsets != [] && offsets[0] == 2 && Passed(raw, offsets)
              && var last := offsets[|offsets| - 1];
              if HeldBy(raw, last).Some? then HeldBy(raw, last) == Some(Orientation(raw))
              else SegmentLength(raw, last) == None && Orientation(raw) == 1
  {
    hide Passed, SegmentLength, HeldBy, ScanMarkers;
    assert |raw| >= 4 ==> raw[..2] == [raw[0], raw[1]];
    offsets := ScanMarkersExact(raw, 2);
  }

  // ---- an orientation written in either byte order is read back ----

  function Put16(n: nat, order: Order): (s: Text)
    requires n < 0x1_0000
    ensures |s| == 2
  {
    if order == Big then [n / 0x100, n % 0x100] else [n % 0x100, n / 0x100]
  }

  function Put32(n: nat, order: Order): (s: Text)
    requires n < 0x1_0000_0000
    ensures |s| == 4
  {
    if order == Big then Put16(n / 0x1_0000, Big) + Put16(n % 0x1_0000, Big)
    else Put16(n % 0x1_0000, Little) + Put16(n / 0x1_0000, Little)
  }

  lemma Get16Put16(n: nat, order: Order)
    requires n < 0x1_0000
    ensures Get16(Put16(n, order), order) == n
  {}

  lemma Get32Put32(n: nat, order: Order)
    requires n < 0x1_0000_0000
    ensures Get32(Put32(n, order), order) == n
  {
    hide Get16, Put16;
    Get16Put16(n / 0x1_0000, order);
    Get16Put16(n % 0x1_0000, order);
    var s := Put32(n, order);
    assert s[..2] == Put16(if order == Big then n / 0x1_0000 else n % 0x1_0000, order);
    assert s[2..] == Put16(if order == Big then n % 0x1_0000 else n / 0x1_0000, order);
  }

  /** An IFD entry: its tag and the ten bytes of type, count and value. */
  datatype Entry = Entry(tag: nat, body: Text)

  predicate ValidEntry(e: Entry) { e.tag < 0x1_0000 && |e.body| == 10 }

  function EntryBytes(e: Entry, order: Order): (s: Text)
    requires ValidEntry(e)
    ensures |s| == 12
  {
    Put16(e.tag, order) + e.body
  }

  function EntriesBytes(es: seq<Entry>, order: Order): (s: Text)
    requires forall e :: e in es ==> ValidEntry(e)
    ensures |s| == 12 * |es|
  {
    if es == [] then [] else EntryBytes(es[0], order) + EntriesBytes(es[1..], order)
  }

  /** The orientation entry: type and count, then the value in the first two of its four value bytes. */
  predicate Orients(e: Entry, v: nat, order: Order) {
    ValidEntry(e) && e.tag == ORIENTATION && 1 <= v <= 8 && e.body[6..8] == Put16(v, order)
  }

  lemma EntryRead(tiff: Text, order: Order, at: nat, e: Entry)
    requires ValidEntry(e) && at + 12 <= |tiff| && tiff[at..at + 12] == EntryBytes(e, order)
    ensures Get16(tiff[at..at + 2], order) == e.tag && tiff[at + 8..at + 10] == e.body[6..8]
  {
    hide Get16, Put16;
    var window := tiff[at..at + 12];
    SliceOfSlice(tiff, at, at + 12, 0, 2);
    SliceOfSlice(tiff, at, at + 12, 8, 10);
    assert window[0..2] == Put16(e.tag, order) && window[8..10] == e.body[6..8];
    Get16Put16(e.tag, order);
  }

  /** The bytes at an offset continue with these entries and then e. */
  ghost predicate EntriesAt(tiff: Text, order: Order, at: nat, before: seq<Entry>, e: Entry)
    requires ValidEntry(e) && forall x :: x in before ==> ValidEntry(x)
  {
    var n := 12 * |before| + 12;
    at + n <= |tiff| && tiff[at..at + n] == EntriesBytes(before, order) + EntryBytes(e, order)
  }

  lemma EntriesPeel(tiff: Text, order: Order, at: nat, before: seq<Entry>, e: Entry)
    requires ValidEntry(e) && (forall x :: x in before ==> ValidEntry(x)) && before != []
             && EntriesAt(tiff, order, at, before, e)
    ensures tiff[at..at + 12] == EntryBytes(before[0], order) && EntriesAt(tiff, order, at + 12, before[1..], e)
  {
    hide EntryBytes;
    var n, rest := 12 * |before| + 12, EntriesBytes(before[1..], order) + EntryBytes(e, order);
    var window := tiff[at..at + n];
    assert window == EntryBytes(before[0], order) + rest;
    SliceOfSlice(tiff, at, at + n, 0, 12);
    SliceOfSlice(tiff, at, at + n, 12, n);
    assert window[0..12] == EntryBytes(before[0], order) && window[12..n] == rest;
  }

  /** Entries without the tag are skipped; the one with it yields its value. */
  lemma {:induction false} ScanFindsEntry(tiff: Text, order: Order, base: nat, i: nat, count: nat, before: seq<Entry>,
                                          e: Entry, v: nat)
    requires i + |before| < count && Orients(e, v, order)
    requires forall x :: x in before ==> ValidEntry(x) && x.tag != ORIENTATION
    requires EntriesAt(tiff, order, base + i * 12, before, e)
    ensures ScanEntries(tiff, order, base, i, count) == Some(v)
    decreases |before|
  {
    hide Get16, Put16, EntryBytes;
    var at := base + i * 12;
    if before == [] {
      assert EntriesBytes(before, order) == [];
      EntryRead(tiff, order, at, e);
      Get16Put16(v, order);
    } else {
      EntriesPeel(tiff, order, at, before, e);
      hide EntriesAt;
      EntryRead(tiff, order, at, before[0]);
      ScanFindsEntry(tiff, order, base, i + 1, count, before[1..], e, v);
    }
  }

  function Mark(order: Order): Text { if order == Little then [0x49, 0x49] else [0x4D, 0x4D] }

  function TiffHeader(order: Order, ifd: nat): (s: Text)
    requires ifd < 0x1_0000_0000
    ensures |s| == 8
  {
    Mark(order) + Put16(42, order) + Put32(ifd, order)
  }

  /** IFD0 with `count` entries declared. */
  function IfdBytes(order: Order, count: nat, entries: Text, rest: Text): Text
    requires count < 0x1_0000
  {
    Put16(count, order) + entries + rest
  }

  /** An APP1 payload: identifier, TIFF header, a gap, IFD0. */
  function App1Bytes(order: Order, gap: Text, count: nat, entries: Text, rest: Text): Text
    requires 8 + |gap| < 0x1_0000_0000 && count < 0x1_0000
  {
    EXIF + (TiffHeader(order, 8 + |gap|) + gap + IfdBytes(order, count, entries, rest))
  }

  lemma HeaderRead(tiff: Text, order: Order, ifd: nat)
    requires ifd < 0x1_0000_0000 && |tiff| >= 8 && tiff[0..8] == TiffHeader(order, ifd)
    ensures ByteOrder(tiff[..2]) == Some(order) && Get16(tiff[2..4], order) == 42 && Get32(tiff[4..8], order) == ifd
  {
    hide Get16, Get32, Put16, Put32;
    var h := TiffHeader(order, ifd);
    SliceOfSlice(tiff, 0, 8, 0, 2);
    SliceOfSlice(tiff, 0, 8, 2, 4);
    SliceOfSlice(tiff, 0, 8, 4, 8);
    assert h[0..2] == Mark(order) && h[2..4] == Put16(42, order) && h[4..8] == Put32(ifd, order);
    Get16Put16(42, order);
    Get32Put32(ifd, order);
  }

  lemma IfdRead(tiff: Text, order: Order, ifd: nat, count: nat, before: seq<Entry>, e: Entry, v: nat, rest: Text)
    requires |before| < count < 0x1_0000 && Orients(e, v, order)
    requires forall x :: x in before ==> ValidEntry(x) && x.tag != ORIENTATION
    requires ifd <= |tiff| && tiff[ifd..] ==
                              IfdBytes(order, count, EntriesBytes(before, order) + EntryBytes(e, order), rest)
    ensures ifd + 2 <= |tiff| && Get16(tiff[ifd..ifd + 2], order) == count
    ensures ScanEntries(tiff, order, ifd + 2, 0, count) == Some(v)
  {
    hide Get16, Put16, EntriesBytes, EntryBytes, ScanEntries;
    var entries := EntriesBytes(before, order) + EntryBytes(e, order);
    var b, n := IfdBytes(order, count, entries, rest), |tiff|;
    assert tiff[ifd..] == tiff[ifd..n];
    SliceOfSlice(tiff, ifd, n, 0, 2);
    SliceOfSlice(tiff, ifd, n, 2, 2 + |entries|);
    assert b[0..2] == Put16(count, order) && b[2..2 + |entries|] == entries;
    Get16Put16(count, order);
    ScanFindsEntry(tiff, order, ifd + 2, 0, count, before, e, v);
  }

  lemma App1ReadBack(order: Order, gap: Text, count: nat, before: seq<Entry>, e: Entry, v: nat, rest: Text)
    requires 8 + |gap| < 0x1_0000_0000 && |before| < count < 0x1_0000 && Orients(e, v, order)
    requires forall x :: x in before ==> ValidEntry(x) && x.tag != ORIENTATION
    ensures App1Orientation(App1Bytes(order, gap, count, EntriesBytes(before, order) + EntryBytes(e, order), rest)) ==
            Some(v)
  {
    hide Get16, Get32, TiffHeader, EntriesBytes, EntryBytes, IfdBytes, ScanEntries, ByteOrder;
    var entries := EntriesBytes(before, order) + EntryBytes(e, order);
    var ifd, bytes := 8 + |gap|, IfdBytes(order, count, entries, rest);
    var payload, tiff := App1Bytes(order, gap, count, entries, rest), TiffHeader(order, ifd) + gap + bytes;
    assert payload[..6] == EXIF && payload[6..] == tiff;
    assert tiff[0..8] == TiffHeader(order, ifd) && tiff[ifd..] == bytes;
    HeaderRead(tiff, order, ifd);
    IfdRead(tiff, order, ifd, count, before, e, v, rest);
  }

  /** A marker segment. */
  datatype Segment = Segment(marker: Byte, payload: Text)

  predicate ValidSegment(g: Segment) { g.marker != 0xDA && |g.payload| + 2 < 0x1_0000 }

  function SegmentBytes(g: Segment): (s: Text)
    requires ValidSegment(g)
    ensures |s| == 4 + |g.payload|
  {
    [0xFF, g.marker] + Put16(|g.payload| + 2, Big) + g.payload
  }

  function SegmentsBytes(gs: seq<Segment>): Text
    requires forall g :: g in gs ==> ValidSegment(g)
  {
    if gs == [] then [] else SegmentBytes(gs[0]) + SegmentsBytes(gs[1..])
  }

  lemma SegmentRead(raw: Text, offset: nat, g: Segment)
    requires ValidSegment(g) && offset + 4 + |g.payload| <= |raw|
             && raw[offset..offset + 4 + |g.payload|] == SegmentBytes(g)
    ensures ScanMarkers(raw, offset) ==
            var found := if g.marker == 0xE1 then App1Orientation(g.payload) else None;
            if found.Some? && 1 <= found.value <= 8 then found.value else ScanMarkers(raw, offset + 4 + |g.payload|)
  {
    hide Get16, Put16, App1Orientation;
    var window, n := raw[offset..offset + 4 + |g.payload|], 4 + |g.payload|;
    assert raw[offset] == window[0] && raw[offset + 1] == window[1];
    SliceOfSlice(raw, offset, offset + n, 2, 4);
    SliceOfSlice(raw, offset, offset + n, 4, n);
    assert window[2..4] == Put16(|g.payload| + 2, Big) && window[4..n] == g.payload;
    Get16Put16(|g.payload| + 2, Big);
  }

  lemma {:induction false} SegmentsSkipped(raw: Text, offset: nat, gs: seq<Segment>)
    requires forall g :: g in gs ==> ValidSegment(g) && (g.marker == 0xE1 ==> App1Orientation(g.payload).None?)
    requires offset + |SegmentsBytes(gs)| <= |raw| && raw[offset..offset + |SegmentsBytes(gs)|] == SegmentsBytes(gs)
    ensures ScanMarkers(raw, offset) == ScanMarkers(raw, offset + |SegmentsBytes(gs)|)
    decreases |gs|
  {
    hide App1Orientation, SegmentBytes, ScanMarkers;
    if gs != [] {
      var g, rest := gs[0], SegmentsBytes(gs[1..]);
      var n, all := 4 + |g.payload|, |SegmentsBytes(gs)|;
      assert g in gs;
      SliceOfSlice(raw, offset, offset + all, 0, n);
      SliceOfSlice(raw, offset, offset + all, n, all);
      SegmentRead(raw, offset, g);
      SegmentsSkipped(raw, offset + n, gs[1..]);
    }
  }

  /** Skippable segments, then one that carries orientation v, then anything. */
  lemma FirstOrientationWins(gs: seq<Segment>, app1: Segment, v: nat, tail: Text)
    requires forall g :: g in gs ==> ValidSegment(g) && (g.marker == 0xE1 ==> App1Orientation(g.payload).None?)
    requires ValidSegment(app1) && app1.marker == 0xE1 && App1Orientation(app1.payload) == Some(v) && 1 <= v <= 8
    ensures Orientation([0xFF, 0xD8] + SegmentsBytes(gs) + SegmentBytes(app1) + tail) == v
  {
    hide App1Orientation, SegmentBytes, SegmentsBytes, ScanMarkers;
    var head, body := SegmentsBytes(gs), SegmentBytes(app1);
    var raw := [0xFF, 0xD8] + head + body + tail;
    var at := 2 + |head|;
    assert raw[2..at] == head;
    assert raw[at..at + |body|] == body;
    SegmentsSkipped(raw, 2, gs);
    SegmentRead(raw, at, app1);
  }

  /** For any JPEG whose header segments before its Exif segment carry no usable
      orientation, the orientation written, in either byte order and anywhere
      in IFD0, is the one found, whatever follows. */
  lemma OrientationReadBack(gs: seq<Segment>, order: Order, gap: Text, count: nat, before: seq<Entry>, e: Entry,
                            v: nat, rest: Text, tail: Text)
    requires forall g :: g in gs ==> ValidSegment(g) && (g.marker == 0xE1 ==> App1Orientation(g.payload).None?)
    requires 8 + |gap| < 0x1_0000_0000 && |before| < count < 0x1_0000 && Orients(e, v, order)
    requires forall x :: x in before ==> ValidEntry(x) && x.tag != ORIENTATION
    requires ValidSegment(Segment(0xE1,
             App1Bytes(order, gap, count, EntriesBytes(before, order) + EntryBytes(e, order), rest)))
    ensures var app1 := Segment(0xE1,
                                App1Bytes(order, gap, count, EntriesBytes(before, order) + EntryBytes(e, order), rest));
            Orientation([0xFF, 0xD8] + SegmentsBytes(gs) + SegmentBytes(app1) + tail) == v
  {
    hide App1Orientation, App1Bytes, SegmentBytes, SegmentsBytes, ScanMarkers, EntriesBytes, EntryBytes, Orientation;
    App1ReadBack(order, gap, count, before, e, v, rest);
    FirstOrientationWins(gs, Segment(0xE1,
        App1Bytes(order, gap, count, EntriesBytes(before, order) + EntryBytes(e, order), rest)), v, tail);
  }
}

/** The eight pixel remappings of applyExifOrientation. */
module Pixels {
  /** Width and height of the upright image. */
  function Upright(o: int, w: nat, h: nat): (nat, nat) { if 5 <= o <= 8 then (h, w) else (w, h) }

  /** The stored pixel (column, row) that lands at (x, y) of the upright image. */
  function Source(o: int, w: int, h: int, x: int, y: int): (int, int) {
    match o
    case 2 => (w - 1 - x, y)
    case 3 => (w - 1 - x, h - 1 - y)
    case 4 => (x, h - 1 - y)
    case 5 => (y, x)
    case 6 => (y, h - 1 - x)
    case 7 => (w - 1 - y, h - 1 - x)
    case 8 => (w - 1 - y, x)
    case _ => (x, y)
  }

  predicate Inside(x: int, y: int, w: int, h: int) { 0 <= x < w && 0 <= y < h }

  /** 6 and 8 undo each other; every other value undoes itself. */
  function Undo(o: int): int { if o == 6 then 8 else if o == 8 then 6 else o }

  lemma SourceInside(o: int, w: nat, h: nat, x: int, y: int)
    requires var (uw, uh) := Upright(o, w, h); Inside(x, y, uw, uh)
    ensures var (sx, sy) := Source(o, w, h, x, y); Inside(sx, sy, w, h)
  {}

  /** Applying o and then its undo gives back every pixel of every image. */
  lemma UndoRestores(o: int, w: nat, h: nat, x: int, y: int)
    requires Inside(x, y, w, h)
    ensures var (uw, uh) := Upright(o, w, h);
            && Upright(Undo(o), uw, uh) == (w, h)
            && (var (ux, uy) := Source(Undo(o), uw, uh, x, y);
                Inside(ux, uy, uw, uh) && Source(o, w, h, ux, uy) == (x, y))
  {}

  /** So each remapping is a bijection between the two rectangles: every stored pixel lands exactly once. */
  lemma EachPixelLandsOnce(o: int, w: nat, h: nat, sx: int, sy: int) returns (x: int, y: int)
    requires Inside(sx, sy, w, h)
    ensures var (uw, uh) := Upright(o, w, h);
            && Inside(x, y, uw, uh) && Source(o, w, h, x, y) == (sx, sy)
            && forall a, b :: Inside(a, b, uw, uh) && Source(o, w, h, a, b) == (sx, sy) ==> a == x && b == y
  {
    var (uw, uh) := Upright(o, w, h);
    x, y := Source(Undo(o), uw, uh, sx, sy).0, Source(Undo(o), uw, uh, sx, sy).1;
    UndoRestores(o, w, h, sx, sy);
  }

  // ---- the Exif table, as the standard states it ----

  datatype Side = Top | Bottom | Left | Right

  /** Section 4.6.4: which visual side the 0th row and the 0th column of the stored image are. */
  function RowSide(o: int): Side {
    if o == 1 || o == 2 then Top else if o == 3 || o == 4 then Bottom else if o == 5 || o == 8 then Left else Right
  }

  function ColumnSide(o: int): Side {
    if o == 1 || o == 4 then Left else if o == 2 || o == 3 then Right else if o == 5 || o == 6 then Top else Bottom
  }

  /** Where a line of pixels that is n-th from a side lies, as an x or a y. */
  function FromSide(side: Side, n: int, uw: int, uh: int): int {
    match side
    case Top => n
    case Left => n
    case Bottom => uh - 1 - n
    case Right => uw - 1 - n
  }

  /** Where the standard displays the stored pixel (sx, sy): its row counts from
      the row side, its column from the column side. */
  function Displayed(o: int, uw: int, uh: int, sx: int, sy: int): (int, int) {
    var byRow, byColumn := FromSide(RowSide(o), sy, uw, uh), FromSide(ColumnSide(o), sx, uw, uh);
    if RowSide(o) == Top || RowSide(o) == Bottom then (byColumn, byRow) else (byRow, byColumn)
  }

  /** The remapping is the correction the standard calls for: the pixel placed at
      (x, y) is the one displayed there. */
  lemma UprightIsDisplayed(o: int, w: nat, h: nat, x: int, y: int)
    requires 1 <= o <= 8
    ensures var (uw, uh) := Upright(o, w, h);
            var (sx, sy) := Source(o, w, h, x, y);
            Displayed(o, uw, uh, sx, sy) == (x, y)
  {}

  /** An image whose bounds start anywhere; `pixels` is indexed [row, column] from that origin. */
  datatype Image<P> = Image(originX: int, originY: int, pixels: array2<P>)

  predicate InBounds<P>(img: Image<P>, x: int, y: int) {
    Inside(x - img.originX, y - img.originY, img.pixels.Length1, img.pixels.Length0)
  }

  function At<P>(img: Image<P>, x: int, y: int): P
    requires InBounds(img, x, y)
    reads img.pixels
  {
    img.pixels[y - img.originY, x - img.originX]
  }

  /** The pixel at (x, y) is the stored one that lands there. */
  ghost predicate Placed<P>(img: Image<P>, pixels: array2<P>, o: int, x: int, y: int)
    reads img.pixels, pixels
  {
    var (sx, sy) := Source(o, img.pixels.Length1, img.pixels.Length0, x, y);
    && Inside(x, y, pixels.Length1, pixels.Length0) && InBounds(img, img.originX + sx, img.originY + sy)
    && pixels[y, x] == At(img, img.originX + sx, img.originY + sy)
  }

  /** applyExifOrientation; values outside 2 to 8 return the image itself, the others a new one with origin (0, 0). */
  method ApplyExifOrientation<P(0)>(img: Image<P>, orientation: int) returns (dst: Image<P>)
    ensures orientation < 2 || orientation > 8 ==> dst == img
    ensures 2 <= orientation <= 8 ==> fresh(dst.pixels) && (dst.originX, dst.originY) == (0, 0)
    ensures 2 <= orientation <= 8 ==>
              (dst.pixels.Length1, dst.pixels.Length0) == Upright(orientation, img.pixels.Length1, img.pixels.Length0)
    ensures 2 <= orientation <= 8 ==>
              forall x, y :: InBounds(dst, x, y) ==> Placed(img, dst.pixels, orientation, x, y)
  {
    if orientation < 2 || orientation > 8 { return img; }
    var w, h := img.pixels.Length1, img.pixels.Length0;
    var (dstW, dstH) := Upright(orientation, w, h);
    var pixels := new P[dstH, dstW];
    for y := 0 to dstH
      invariant forall a, b :: Inside(a, b, dstW, y) ==> Placed(img, pixels, orientation, a, b)
    {
      for x := 0 to dstW
        invariant forall a, b :: Inside(a, b, dstW, y) ==> Placed(img, pixels, orientation, a, b)
        invariant forall a :: 0 <= a < x ==> Placed(img, pixels, orientation, a, y)
      {
        SourceInside(orientation, w, h, x, y);
        var (sx, sy) := Source(orientation, w, h, x, y);
        pixels[y, x] := At(img, img.originX + sx, img.originY + sy);
        assert Placed(img, pixels, orientation, x, y);
      }
    }
    dst := Image(0, 0, pixels);
  }
}
