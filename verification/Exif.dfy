// Finding a JPEG's orientation: the marker scan (section B.1.1 of ITU-T T.81) and the
// first directory of the Exif data (section 2 of TIFF 6.0), against an encoder for both.
module Exif {
  import opened Prelude

  type Byte = x: int | 0 <= x < 256

  const ORIENTATION_TAG: int := 0x0112

  function ExifHeader(): seq<Byte> {
    [0x45, 0x78, 0x69, 0x66, 0, 0]
  }

  // ---- numbers in either byte order -------------------------------------------------------

  function U16(big: bool, t: seq<Byte>, i: nat): (n: nat)
    requires i + 2 <= |t|
    ensures n < 0x1_0000
  {
    var a: int, b: int := t[i], t[i + 1];
    if big then 256 * a + b else a + 256 * b
  }

  function U32(big: bool, t: seq<Byte>, i: nat): nat
    requires i + 4 <= |t|
  {
    if big then 0x1_0000 * U16(big, t, i) + U16(big, t, i + 2) else U16(big, t, i) + 0x1_0000 * U16(big, t, i + 2)
  }

  function Put16(big: bool, n: nat): (s: seq<Byte>)
    requires n < 0x1_0000
    ensures |s| == 2 && U16(big, s, 0) == n
  {
    if big then [n / 256, n % 256] else [n % 256, n / 256]
  }

  function Put32(big: bool, n: nat): (s: seq<Byte>)
    requires n < 0x1_0000_0000
    ensures |s| == 4
  {
    if big then Put16(big, n / 0x1_0000) + Put16(big, n % 0x1_0000)
      else Put16(big, n % 0x1_0000) + Put16(big, n / 0x1_0000)
  }

  lemma Read16(big: bool, before: seq<Byte>, n: nat, after: seq<Byte>)
    requires n < 0x1_0000
    ensures U16(big, before + Put16(big, n) + after, |before|) == n
  {
  }

  // ---- the first directory ------------------------------------------------------------------

  // Where the entries start and how many there are; None when the header is not one.
  function Directory(t: seq<Byte>): (d: Ifd)
    ensures d.Found? ==> 8 <= d.off && d.off + 2 <= |t| && d.entries == U16(d.big, t, d.off)
  {
    if |t| < 8 then Missing
    else if t[..2] != Mark(false) && t[..2] != Mark(true) then Missing
    else
      var big := t[..2] == Mark(true);
      if U16(big, t, 2) != 42 then Missing
      else
        var off := U32(big, t, 4);
        if off < 8 || off + 2 > |t| then Missing else Found(big, off, U16(big, t, off))
  }

  datatype Ifd = Missing | Found(big: bool, off: nat, entries: nat)

  // The orientation among the entries from the k-th on, 0 when there is none to be read.
  function FromEntry(big: bool, t: seq<Byte>, off: nat, entries: nat, k: nat): nat
    requires off + 2 <= |t| && k <= entries
    decreases entries - k
  {
    var e := off + 2 + 12 * k;
    if k == entries || e + 12 > |t| then 0
    else if U16(big, t, e) == ORIENTATION_TAG then
      var v := U16(big, t, e + 8);
      if 1 <= v <= 8 then v else 0
    else FromEntry(big, t, off, entries, k + 1)
  }

  function TiffSpec(t: seq<Byte>): (o: nat)
    ensures o <= 8
  {
    match Directory(t)
    case Missing => 0
    case Found(big, off, entries) => FromEntryBound(big, t, off, entries); FromEntry(big, t, off, entries, 0)
  }

  lemma {:induction false} FromEntryBound(big: bool, t: seq<Byte>, off: nat, entries: nat)
    requires off + 2 <= |t|
    ensures FromEntry(big, t, off, entries, 0) <= 8
  {
    FromEntryBoundAt(big, t, off, entries, 0);
  }

  lemma {:induction false} FromEntryBoundAt(big: bool, t: seq<Byte>, off: nat, entries: nat, k: nat)
    requires off + 2 <= |t| && k <= entries
    ensures FromEntry(big, t, off, entries, k) <= 8
    decreases entries - k
  {
    if k < entries && off + 2 + 12 * k + 12 <= |t| {
      FromEntryBoundAt(big, t, off, entries, k + 1);
    }
  }

  // Big-endian or little-endian, with the number 42 after the byte order.
  ghost predicate TiffMarked(t: seq<Byte>) {
    |t| >= 8 && (t[..4] == [0x4D, 0x4D, 0, 42] || t[..4] == [0x49, 0x49, 42, 0])
  }

  lemma FoundIsMarked(t: seq<Byte>)
    requires Directory(t).Found?
    ensures TiffMarked(t)
  {
    var big := t[..2] == Mark(true);
    assert t[..2] == Mark(big) && U16(big, t, 2) == 42;
    assert t[0] == t[..2][0] && t[1] == t[..2][1];
    assert t[..4] == [t[0], t[1], t[2], t[3]];
  }

  method TiffOrientation(t: seq<Byte>) returns (o: nat)
    ensures o == TiffSpec(t)
    ensures o <= 8 && (!TiffMarked(t) ==> o == 0)
  {
    var d := Directory(t);
    if d.Missing? {
      return 0;
    }
    FoundIsMarked(t);
    for k := 0 to d.entries
      invariant FromEntry(d.big, t, d.off, d.entries, 0) == FromEntry(d.big, t, d.off, d.entries, k)
    {
      var e := d.off + 2 + 12 * k;
      if e + 12 > |t| {
        return 0;
      }
      if U16(d.big, t, e) == ORIENTATION_TAG {
        var v := U16(d.big, t, e + 8);
        return if 1 <= v <= 8 then v else 0;
      }
    }
    o := 0;
  }

  // ---- the scan --------------------------------------------------------------------------------

  predicate EndsScan(marker: Byte) {
    marker == 0xDA || marker == 0xD9
  }

  predicate Standalone(marker: Byte) {
    0xD0 <= marker <= 0xD7 || marker == 0x01
  }

  predicate IsExif(marker: Byte, payload: seq<Byte>) {
    marker == 0xE1 && ExifHeader() <= payload
  }

  function OrUpright(o: nat): nat {
    if o != 0 then o else 1
  }

  // The Exif data found by scanning from i on.
  function Scan(data: seq<Byte>, i: nat): Option<seq<Byte>>
    decreases |data| - i
  {
    if i + 4 > |data| || data[i] != 0xFF then None
    else if data[i + 1] == 0xFF then Scan(data, i + 1)
    else if EndsScan(data[i + 1]) then None
    else if Standalone(data[i + 1]) then Scan(data, i + 2)
    else
      var length := U16(true, data, i + 2);
      if length < 2 || i + 2 + length > |data| then None
      else if IsExif(data[i + 1], data[i + 4..i + 2 + length]) then Some(data[i + 4..i + 2 + length][6..])
      else Scan(data, i + 2 + length)
  }

  // The orientation of the Exif data, upright without any.
  function JpegSpec(data: seq<Byte>): nat {
    if |data| < 4 || data[..2] != [0xFF, 0xD8] then 1
    else FoundOrientation(Scan(data, 2))
  }

  // The orientation of the Exif data found, if any was.
  function FoundOrientation(found: Option<seq<Byte>>): nat {
    match found
    case None => 1
    case Some(t) => OrUpright(TiffSpec(t))
  }

  lemma MarkedPhoto(data: seq<Byte>)
    requires |data| >= 4 && data[0] == 0xFF && data[1] == 0xD8
    ensures JpegSpec(data) == FoundOrientation(Scan(data, 2))
  {
    assert data[..2] == [0xFF, 0xD8];
  }

  method JpegOrientation(data: seq<Byte>) returns (o: nat)
    ensures o == JpegSpec(data)
    ensures 1 <= o <= 8
  {
    if |data| < 4 || data[0] != 0xFF || data[1] != 0xD8 {
      return 1;
    }
    MarkedPhoto(data);
    ghost var found := Scan(data, 2);
    var i := 2;
    while i + 4 <= |data|
      invariant Scan(data, i) == found
      decreases |data| - i
    {
      if data[i] != 0xFF {
        return 1;
      }
      var marker := data[i + 1];
      if marker == 0xFF {
        i := i + 1;
      } else if EndsScan(marker) {
        return 1;
      } else if Standalone(marker) {
        i := i + 2;
      } else {
        var length := U16(true, data, i + 2);
        if length < 2 || i + 2 + length > |data| {
          return 1;
        }
        var segment := data[i + 4..i + 2 + length];
        if IsExif(marker, segment) {
          o := TiffOrientation(segment[6..]);
          return OrUpright(o);
        }
        i := i + 2 + length;
      }
    }
    o := 1;
  }

  // ---- an encoder -----------------------------------------------------------------------------------

  // A directory entry: tag, type and count, then a value whose first two bytes are here.
  datatype Entry = Entry(tag: nat, middle: seq<Byte>, value: nat, rest: seq<Byte>)

  predicate EntryOk(e: Entry) {
    e.tag < 0x1_0000 && e.value < 0x1_0000 && |e.middle| == 6 && |e.rest| == 2
  }

  function PutEntry(big: bool, e: Entry): (s: seq<Byte>)
    requires EntryOk(e)
    ensures |s| == 12
  {
    Put16(big, e.tag) + e.middle + Put16(big, e.value) + e.rest
  }

  function PutEntries(big: bool, entries: seq<Entry>): (s: seq<Byte>)
    requires forall i :: 0 <= i < |entries| ==> EntryOk(entries[i])
    ensures |s| == 12 * |entries|
  {
    if entries == [] then [] else PutEntry(big, entries[0]) + PutEntries(big, entries[1..])
  }

  datatype Tiff = Tiff(big: bool, gap: seq<Byte>, entries: seq<Entry>, tail: seq<Byte>)

  predicate TiffOk(t: Tiff) {
    |t.gap| + 8 < 0x1_0000_0000 && |t.entries| < 0x1_0000 && forall i :: 0 <= i < |t.entries| ==> EntryOk(t.entries[i])
  }

  function TiffHeader(t: Tiff): (s: seq<Byte>)
    requires TiffOk(t)
    ensures |s| == 8
  {
    (if t.big then [0x4D, 0x4D] else [0x49, 0x49]) + Put16(t.big, 42) + Put32(t.big, 8 + |t.gap|)
  }

  function PutTiff(t: Tiff): seq<Byte>
    requires TiffOk(t)
  {
    TiffHeader(t) + t.gap + Put16(t.big, |t.entries|) + PutEntries(t.big, t.entries) + t.tail
  }

  // The value of the first orientation entry, when it is one.
  function OrientationIn(entries: seq<Entry>): nat {
    if entries == [] then 0
    else if entries[0].tag == 0x0112 then (if 1 <= entries[0].value <= 8 then entries[0].value else 0)
    else OrientationIn(entries[1..])
  }

  function Mark(big: bool): (s: seq<Byte>)
    ensures |s| == 2
  {
    if big then [0x4D, 0x4D] else [0x49, 0x49]
  }

  lemma {:induction false} HeaderRead(t: Tiff, rest: seq<Byte>)
    requires TiffOk(t)
    ensures var s := TiffHeader(t) + rest;
      s[..2] == Mark(t.big) && U16(t.big, s, 2) == 42 && U32(t.big, s, 4) == 8 + |t.gap|
  {
  }

  lemma Regroup(a: seq<Byte>, b: seq<Byte>, c: seq<Byte>, d: seq<Byte>)
    ensures a + (b + c + d) == (a + b) + c + d
  {
  }

  lemma {:induction false} DirectoryRead(t: Tiff)
    requires TiffOk(t)
    ensures Directory(PutTiff(t)) == Found(t.big, 8 + |t.gap|, |t.entries|)
  {
    var s := PutTiff(t);
    var count, entries := Put16(t.big, |t.entries|), PutEntries(t.big, t.entries) + t.tail;
    HeaderRead(t, t.gap + count + entries);
    assert s == TiffHeader(t) + (t.gap + count + entries);
    Regroup(TiffHeader(t), t.gap, count, entries);
    Read16(t.big, TiffHeader(t) + t.gap, |t.entries|, entries);
    assert Mark(true) != Mark(false) && s[0] == s[..2][0];
  }

  lemma EntryRead(big: bool, before: seq<Byte>, e: Entry, after: seq<Byte>)
    requires EntryOk(e)
    ensures var s := before + PutEntry(big, e) + after;
      U16(big, s, |before|) == e.tag && U16(big, s, |before| + 8) == e.value
  {
  }

  lemma {:induction false} EntriesRead(big: bool, before: seq<Byte>, entries: seq<Entry>, after: seq<Byte>, off: nat,
                                       total: nat, k: nat)
    requires forall i :: 0 <= i < |entries| ==> EntryOk(entries[i])
    requires |before| == off + 2 + 12 * k && k + |entries| == total
    ensures FromEntry(big, before + PutEntries(big, entries) + after, off, total, k) == OrientationIn(entries)
    decreases |entries|
  {
    if entries != [] {
      var rest := PutEntries(big, entries[1..]);
      var s := before + PutEntries(big, entries) + after;
      assert s == before + PutEntry(big, entries[0]) + (rest + after);
      EntryRead(big, before, entries[0], rest + after);
      var next := before + PutEntry(big, entries[0]);
      assert s == next + rest + after;
      EntriesRead(big, next, entries[1..], after, off, total, k + 1);
    }
  }

  // Whatever the byte order, the padding and the other entries, the first orientation
  // entry is what is read.
  lemma TiffReadsBack(t: Tiff)
    requires TiffOk(t)
    ensures TiffSpec(PutTiff(t)) == OrientationIn(t.entries)
  {
    DirectoryRead(t);
    var before := TiffHeader(t) + t.gap + Put16(t.big, |t.entries|);
    assert PutTiff(t) == before + PutEntries(t.big, t.entries) + t.tail;
    EntriesRead(t.big, before, t.entries, t.tail, 8 + |t.gap|, |t.entries|, 0);
  }

  // What may come before the Exif segment: fill bytes, markers without a length, and
  // segments of any other kind.
  datatype Item = Fill | Bare(marker: Byte) | Segment(marker: Byte, payload: seq<Byte>)

  predicate HasLength(marker: Byte) {
    marker != 0xFF && marker != 0xDA && marker != 0xD9 && marker != 0x01 && !(0xD0 <= marker <= 0xD7)
  }

  // "Exif" and two zero bytes.
  function ExifMark(): seq<Byte> {
    [0x45, 0x78, 0x69, 0x66, 0, 0]
  }

  predicate ItemOk(x: Item) {
    match x
    case Fill => true
    case Bare(m) => m == 0x01 || 0xD0 <= m <= 0xD7
    case Segment(m, payload) => HasLength(m) && |payload| + 2 < 0x1_0000 && !(m == 0xE1 && ExifMark() <= payload)
  }

  function PutSegment(marker: Byte, payload: seq<Byte>): (s: seq<Byte>)
    requires |payload| + 2 < 0x1_0000
    ensures |s| == 4 + |payload| && s[0] == 0xFF
  {
    [0xFF, marker] + Put16(true, |payload| + 2) + payload
  }

  function PutItem(x: Item): (s: seq<Byte>)
    requires ItemOk(x)
    ensures |s| > 0 && s[0] == 0xFF
  {
    match x
    case Fill => [0xFF]
    case Bare(m) => [0xFF, m]
    case Segment(m, payload) => PutSegment(m, payload)
  }

  predicate AllOk(items: seq<Item>) {
    items == [] || (ItemOk(items[0]) && AllOk(items[1..]))
  }

  function PutItems(items: seq<Item>): seq<Byte>
    requires AllOk(items)
  {
    if items == [] then [] else PutItem(items[0]) + PutItems(items[1..])
  }

  predicate PhotoOk(items: seq<Item>, tiff: Tiff) {
    && AllOk(items) && TiffOk(tiff) && |ExifMark() + PutTiff(tiff)| + 2 < 0x1_0000
  }

  function PutPhoto(items: seq<Item>, tiff: Tiff, image: seq<Byte>): seq<Byte>
    requires PhotoOk(items, tiff)
  {
    [0xFF, 0xD8] + (PutItems(items) + (PutSegment(0xE1, ExifMark() + PutTiff(tiff)) + image))
  }

  // Some bytes of s, from i on, are exactly these.
  predicate At(s: seq<Byte>, i: nat, part: seq<Byte>) {
    i + |part| <= |s| && s[i..i + |part|] == part
  }

  lemma AtSplit(s: seq<Byte>, i: nat, a: seq<Byte>, b: seq<Byte>)
    requires At(s, i, a + b)
    ensures At(s, i, a) && At(s, i + |a|, b)
  {
    assert s[i..i + |a|] == (a + b)[..|a|];
    assert s[i + |a|..i + |a| + |b|] == (a + b)[|a|..];
  }

  lemma AtByte(s: seq<Byte>, i: nat, part: seq<Byte>, k: nat)
    requires At(s, i, part) && k < |part|
    ensures i + k < |s| && s[i + k] == part[k]
  {
  }

  lemma {:induction false} SegmentRead(s: seq<Byte>, i: nat, marker: Byte, payload: seq<Byte>)
    requires |payload| + 2 < 0x1_0000 && At(s, i, PutSegment(marker, payload))
    ensures i + 4 + |payload| <= |s| && s[i] == 0xFF && s[i + 1] == marker && U16(true, s, i + 2) == |payload| + 2
    ensures s[i + 4..i + 4 + |payload|] == payload
  {
    var head := [0xFF, marker] + Put16(true, |payload| + 2);
    assert PutSegment(marker, payload) == head + payload;
    AtSplit(s, i, head, payload);
    AtByte(s, i, head, 0);
    AtByte(s, i, head, 1);
    AtByte(s, i, head, 2);
    AtByte(s, i, head, 3);
    assert head[2] == Put16(true, |payload| + 2)[0] && head[3] == Put16(true, |payload| + 2)[1];
  }

  // Scanning an item skips it, as long as a marker and two more bytes still follow.
  lemma {:induction false} ItemSkipped(s: seq<Byte>, i: nat, x: Item, end: nat)
    requires ItemAt(s, i, x, end)
    ensures Scan(s, i) == Scan(s, end)
  {
    AtByte(s, i, PutItem(x), 0);
    match x
    case Fill =>
    case Bare(m) => AtByte(s, i, PutItem(x), 1);
    case Segment(m, payload) => SegmentRead(s, i, m, payload);
  }

  // These bytes lie in s from i to end, where a marker follows.
  ghost predicate Before(s: seq<Byte>, i: nat, part: seq<Byte>, end: nat) {
    At(s, i, part) && end == i + |part| && end + 4 <= |s| && s[end] == 0xFF
  }

  ghost predicate ItemsAt(s: seq<Byte>, i: nat, items: seq<Item>, end: nat) {
    AllOk(items) && Before(s, i, PutItems(items), end)
  }

  ghost predicate ItemAt(s: seq<Byte>, i: nat, x: Item, end: nat) {
    ItemOk(x) && Before(s, i, PutItem(x), end)
  }

  lemma {:induction false} ItemsCons(items: seq<Item>)
    requires AllOk(items) && items != []
    ensures ItemOk(items[0]) && AllOk(items[1..])
    ensures PutItems(items) == PutItem(items[0]) + PutItems(items[1..])
  {
  }

  // After the first of two parts comes the second, a marker, or both.
  lemma MarkerAfterFirst(s: seq<Byte>, i: nat, first: seq<Byte>, rest: seq<Byte>, end: nat)
    requires Before(s, i, first + rest, end) && (rest == [] || rest[0] == 0xFF)
    ensures Before(s, i, first, i + |first|) && Before(s, i + |first|, rest, end)
  {
    AtSplit(s, i, first, rest);
    if rest != [] {
      AtByte(s, i + |first|, rest, 0);
    }
  }

  lemma ItemsStartWithMarker(items: seq<Item>)
    requires AllOk(items)
    ensures PutItems(items) == [] || PutItems(items)[0] == 0xFF
  {
  }

  lemma FirstItem(s: seq<Byte>, i: nat, x: Item, more: seq<Item>, end: nat)
    requires ItemOk(x) && AllOk(more) && Before(s, i, PutItem(x) + PutItems(more), end)
    ensures ItemAt(s, i, x, i + |PutItem(x)|) && ItemsAt(s, i + |PutItem(x)|, more, end)
  {
    ItemsStartWithMarker(more);
    MarkerAfterFirst(s, i, PutItem(x), PutItems(more), end);
  }

  lemma {:induction false} ItemsSkipped(s: seq<Byte>, i: nat, items: seq<Item>, end: nat)
    requires ItemsAt(s, i, items, end)
    ensures Scan(s, i) == Scan(s, end)
    decreases |items|
  {
    if items == [] {
      assert i == end;
    } else {
      ItemsCons(items);
      FirstItem(s, i, items[0], items[1..], end);
      var next := i + |PutItem(items[0])|;
      ItemSkipped(s, i, items[0], next);
      ItemsSkipped(s, next, items[1..], end);
    }
  }

  lemma {:induction false} ExifRead(s: seq<Byte>, i: nat, tiff: Tiff)
    requires TiffOk(tiff) && |ExifMark() + PutTiff(tiff)| + 2 < 0x1_0000
    requires At(s, i, PutSegment(0xE1, ExifMark() + PutTiff(tiff)))
    ensures Scan(s, i) == Some(PutTiff(tiff))
  {
    var payload := ExifMark() + PutTiff(tiff);
    SegmentRead(s, i, 0xE1, payload);
    assert payload[6..] == PutTiff(tiff);
    assert ExifMark() <= payload;
  }

  // The scan reaches what follows the items before it.
  lemma {:induction false} ItemsPassed(items: seq<Item>, tail: seq<Byte>, s: seq<Byte>)
    requires AllOk(items) && |tail| >= 4 && tail[0] == 0xFF && s == [0xFF, 0xD8] + (PutItems(items) + tail)
    ensures var i := 2 + |PutItems(items)|; At(s, i, tail) && JpegSpec(s) == FoundOrientation(Scan(s, i))
  {
    var i := 2 + |PutItems(items)|;
    assert s[2..] == PutItems(items) + tail;
    AtSplit(s, 2, PutItems(items), tail);
    AtByte(s, i, tail, 0);
    ItemsSkipped(s, 2, items, i);
    MarkedPhoto(s);
  }

  // The orientation written is the orientation read, whatever surrounds it.
  lemma {:induction false} PhotoReadsBack(items: seq<Item>, tiff: Tiff, image: seq<Byte>)
    requires PhotoOk(items, tiff)
    ensures JpegSpec(PutPhoto(items, tiff, image)) ==
      if OrientationIn(tiff.entries) == 0 then 1 else OrientationIn(tiff.entries)
  {
    var s := PutPhoto(items, tiff, image);
    var segment := PutSegment(0xE1, ExifMark() + PutTiff(tiff));
    var i := 2 + |PutItems(items)|;
    ItemsPassed(items, segment + image, s);
    AtSplit(s, i, segment, image);
    ExifRead(s, i, tiff);
    TiffReadsBack(tiff);
  }

  // Without Exif data before the picture starts or the file ends, the photo is upright.
  lemma {:induction false} UprightWithoutExif(items: seq<Item>, marker: Byte, rest: seq<Byte>)
    requires AllOk(items) && (marker == 0xDA || marker == 0xD9) && |rest| >= 2
    ensures JpegSpec([0xFF, 0xD8] + (PutItems(items) + ([0xFF, marker] + rest))) == 1
  {
    var tail: seq<Byte> := [0xFF, marker] + rest;
    var s: seq<Byte> := [0xFF, 0xD8] + (PutItems(items) + tail);
    var i := 2 + |PutItems(items)|;
    ItemsPassed(items, tail, s);
    AtByte(s, i, tail, 0);
    AtByte(s, i, tail, 1);
  }

  // The bytes of a directory with one entry: orientation, one short, value 6.
  function PortraitEntry(): seq<Byte> {
    [0x01, 0x12, 0, 3, 0, 0, 0, 1, 0, 6, 0, 0]
  }

  // The Exif data of a phone held upright, byte by byte, is read as 6.
  lemma PortraitRead()
    ensures TiffSpec([0x4D, 0x4D, 0, 42, 0, 0, 0, 8, 0, 1] + PortraitEntry()) == 6
  {
    var e := Entry(0x0112, [0, 3, 0, 0, 0, 1], 6, [0, 0]);
    var t := Tiff(true, [], [e], []);
    assert PutEntry(true, e) == PortraitEntry();
    assert PutEntries(true, [e]) == PortraitEntry();
    assert Put16(true, 0) == [0, 0] && Put16(true, 8) == [0, 8];
    assert Put32(true, 8) == [0, 0, 0, 8] && Put16(true, 42) == [0, 42] && Put16(true, 1) == [0, 1];
    assert PutTiff(t) == [0x4D, 0x4D, 0, 42, 0, 0, 0, 8, 0, 1] + PortraitEntry();
    TiffReadsBack(t);
  }
}
