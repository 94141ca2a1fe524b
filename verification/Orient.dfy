// Turning an image upright: the eight orientations as pixel maps, and the loop that
// copies pixel by pixel into a buffer.
module Orient {
  predicate Swaps(o: nat) {
    5 <= o <= 8
  }

  function Width(o: nat, w: nat, h: nat): nat {
    if Swaps(o) then h else w
  }

  function Height(o: nat, w: nat, h: nat): nat {
    if Swaps(o) then w else h
  }

  datatype Point = Point(x: int, y: int)

  // Where the pixel shown at p comes from, in a w by h source.
  function Source(o: nat, w: nat, h: nat, p: Point): Point {
    match o
    case 2 => Point(w - 1 - p.x, p.y)
    case 3 => Point(w - 1 - p.x, h - 1 - p.y)
    case 4 => Point(p.x, h - 1 - p.y)
    case 5 => Point(p.y, p.x)
    case 6 => Point(p.y, h - 1 - p.x)
    case 7 => Point(w - 1 - p.y, h - 1 - p.x)
    case 8 => Point(w - 1 - p.y, p.x)
    case _ => p
  }

  predicate Within(p: Point, w: nat, h: nat) {
    0 <= p.x < w && 0 <= p.y < h
  }

  predicate IsOrientation(o: nat) {
    1 <= o <= 8
  }

  // 6 and 8 undo each other; every other orientation undoes itself.
  function Inverse(o: nat): nat {
    if o == 6 then 8 else if o == 8 then 6 else o
  }

  // Every pixel shown comes from a pixel of the source.
  lemma SourceWithin(o: nat, w: nat, h: nat, p: Point)
    requires IsOrientation(o) && Within(p, Width(o, w, h), Height(o, w, h))
    ensures Within(Source(o, w, h, p), w, h)
  {
  }

  // The inverse orientation of the turned image, followed by the orientation, is nothing.
  lemma InverseUndoes(o: nat, w: nat, h: nat, p: Point)
    requires IsOrientation(o)
    ensures var w', h' := Width(o, w, h), Height(o, w, h);
      && Width(Inverse(o), w', h') == w && Height(Inverse(o), w', h') == h
      && Source(o, w, h, Source(Inverse(o), w', h', p)) == p
      && Source(Inverse(o), w', h', Source(o, w, h, p)) == p
  {
  }

  // The pixel map is a bijection from the shown image onto the source.
  lemma SourceBijective(o: nat, w: nat, h: nat, q: Point)
    requires IsOrientation(o) && Within(q, w, h)
    ensures var p := Source(Inverse(o), Width(o, w, h), Height(o, w, h), q);
      && Within(p, Width(o, w, h), Height(o, w, h)) && Source(o, w, h, p) == q
      && forall r :: Within(r, Width(o, w, h), Height(o, w, h)) && Source(o, w, h, r) == q ==> r == p
  {
  }

  // An orientation as whether it swaps the axes, and which source axes it reverses.
  function Code(o: nat): (bool, bool, bool)
    requires IsOrientation(o)
  {
    (Swaps(o), o in {2, 3, 7, 8}, o in {3, 4, 6, 7})
  }

  function Decode(swap: bool, rx: bool, ry: bool): (o: nat)
    ensures IsOrientation(o) && Code(o) == (swap, rx, ry)
  {
    if swap then (if rx then (if ry then 7 else 8) else if ry then 6 else 5)
    else if rx then (if ry then 3 else 2) else if ry then 4 else 1
  }

  // Turning by a and then by b, in one step.
  function Then(a: nat, b: nat): nat
    requires IsOrientation(a) && IsOrientation(b)
  {
    var (sa, xa, ya) := Code(a);
    var (sb, xb, yb) := Code(b);
    if sa then Decode(!sb, xa != yb, ya != xb) else Decode(sb, xa != xb, ya != yb)
  }

  // The eight orientations are closed under composition, for every image size.
  lemma Composes(a: nat, b: nat, w: nat, h: nat, p: Point)
    requires IsOrientation(a) && IsOrientation(b)
    ensures var w1, h1 := Width(a, w, h), Height(a, w, h);
      && IsOrientation(Then(a, b))
      && Width(Then(a, b), w, h) == Width(b, w1, h1) && Height(Then(a, b), w, h) == Height(b, w1, h1)
      && Source(Then(a, b), w, h, p) == Source(a, w, h, Source(b, w1, h1, p))
  {
  }

  // ---- what the orientation tag says --------------------------------------------------------

  datatype Side = Top | Right | Bottom | Left

  // On which side of the shown image the first stored row lies.
  function RowSide(o: nat): Side
    requires IsOrientation(o)
  {
    match o
    case 1 => Top
    case 2 => Top
    case 3 => Bottom
    case 4 => Bottom
    case 5 => Left
    case 6 => Right
    case 7 => Right
    case 8 => Left
  }

  // On which side the first stored column lies.
  function ColumnSide(o: nat): Side
    requires IsOrientation(o)
  {
    match o
    case 1 => Left
    case 2 => Right
    case 3 => Right
    case 4 => Left
    case 5 => Top
    case 6 => Top
    case 7 => Bottom
    case 8 => Bottom
  }

  // How many pixels lie between p and a side of an image.
  function Depth(side: Side, p: Point, w: nat, h: nat): int {
    match side
    case Top => p.y
    case Bottom => h - 1 - p.y
    case Left => p.x
    case Right => w - 1 - p.x
  }

  // Stored row r is shown r pixels from the first row's side, and columns likewise.
  lemma ShownSides(o: nat, w: nat, h: nat, p: Point)
    requires IsOrientation(o)
    ensures Source(o, w, h, p).y == Depth(RowSide(o), p, Width(o, w, h), Height(o, w, h))
    ensures Source(o, w, h, p).x == Depth(ColumnSide(o), p, Width(o, w, h), Height(o, w, h))
  {
  }

  // The pixel at p in a dw by dh image is the stored one its depths name.
  ghost predicate ShownAt<Pixel>(o: nat, src: seq<Pixel>, w: nat, dst: seq<Pixel>, dw: nat, dh: nat, p: Point)
    requires IsOrientation(o)
  {
    SameAt(src, Depth(RowSide(o), p, dw, dh) * w + Depth(ColumnSide(o), p, dw, dh), dst, p.y * dw + p.x)
  }

  // ---- the copy ---------------------------------------------------------------------------

  // Pixels are stored row by row.
  function Offset(p: Point, w: nat): int {
    p.y * w + p.x
  }

  lemma OffsetWithin(p: Point, w: nat, h: nat)
    requires Within(p, w, h)
    ensures 0 <= Offset(p, w) < w * h
  {
    assert p.y * w <= (h - 1) * w;
    assert (h - 1) * w + w == h * w;
  }

  lemma OffsetsApart(p: Point, q: Point, w: nat)
    requires 0 <= p.x < w && 0 <= q.x < w && p.y >= 0 && q.y >= 0
    ensures Offset(p, w) == Offset(q, w) ==> p == q
    ensures p.y < q.y || (p.y == q.y && p.x < q.x) ==> Offset(p, w) < Offset(q, w)
  {
    if p.y < q.y {
      RowsApart(p.y, q.y, w);
    } else if q.y < p.y {
      RowsApart(q.y, p.y, w);
    }
  }

  lemma RowsApart(a: int, b: int, w: nat)
    requires a < b
    ensures a * w + w <= b * w
  {
    assert (b - a - 1) * w >= 0;
    assert (b - a - 1) * w == b * w - a * w - w;
  }

  ghost predicate SameAt<Pixel>(src: seq<Pixel>, from: int, dst: seq<Pixel>, to: int) {
    0 <= from < |src| && 0 <= to < |dst| && dst[to] == src[from]
  }

  // The pixel shown at p is the source's pixel there.
  ghost predicate Copied<Pixel>(o: nat, w: nat, h: nat, src: seq<Pixel>, dst: seq<Pixel>, p: Point) {
    SameAt(src, Offset(Source(o, w, h, p), w), dst, Offset(p, Width(o, w, h)))
  }

  // p is before (x, y) in the order pixels are written.
  predicate Earlier(p: Point, x: int, y: int) {
    p.y < y || (p.y == y && p.x < x)
  }

  lemma OneMorePixel<Pixel>(o: nat, w: nat, h: nat, src: seq<Pixel>, dst: seq<Pixel>, at: Point)
    requires IsOrientation(o) && |src| == |dst| == w * h && Within(at, Width(o, w, h), Height(o, w, h))
    requires forall p :: Within(p, Width(o, w, h), Height(o, w, h)) && Earlier(p, at.x, at.y) ==>
      Copied(o, w, h, src, dst, p)
    ensures Within(Source(o, w, h, at), w, h) && 0 <= Offset(Source(o, w, h, at), w) < |src| &&
      0 <= Offset(at, Width(o, w, h)) < |dst|
    ensures var next := dst[Offset(at, Width(o, w, h)) := src[Offset(Source(o, w, h, at), w)]];
      forall p :: Within(p, Width(o, w, h), Height(o, w, h)) && Earlier(p, at.x + 1, at.y) ==>
        Copied(o, w, h, src, next, p)
  {
    SourceWithin(o, w, h, at);
    OffsetWithin(Source(o, w, h, at), w, h);
    OffsetWithin(at, Width(o, w, h), Height(o, w, h));
    var next := dst[Offset(at, Width(o, w, h)) := src[Offset(Source(o, w, h, at), w)]];
    forall p | Within(p, Width(o, w, h), Height(o, w, h)) && Earlier(p, at.x + 1, at.y)
      ensures Copied(o, w, h, src, next, p)
    {
      assert p != at ==> Copied(o, w, h, src, dst, p);
      PixelKept(o, w, h, src, dst, at, p);
    }
  }

  lemma PixelKept<Pixel>(o: nat, w: nat, h: nat, src: seq<Pixel>, dst: seq<Pixel>, at: Point, p: Point)
    requires IsOrientation(o) && |src| == |dst| == w * h
    requires Within(at, Width(o, w, h), Height(o, w, h)) && Within(p, Width(o, w, h), Height(o, w, h))
    requires p != at ==> Copied(o, w, h, src, dst, p)
    requires 0 <= Offset(Source(o, w, h, at), w) < |src| && 0 <= Offset(at, Width(o, w, h)) < |dst|
    ensures Copied(o, w, h, src, dst[Offset(at, Width(o, w, h)) := src[Offset(Source(o, w, h, at), w)]], p)
  {
    OffsetsApart(p, at, Width(o, w, h));
    WrittenOnce(src, dst, Offset(Source(o, w, h, at), w), Offset(at, Width(o, w, h)),
                Offset(Source(o, w, h, p), w), Offset(p, Width(o, w, h)));
  }

  lemma WrittenOnce<Pixel>(src: seq<Pixel>, dst: seq<Pixel>, from: int, to: int, a: int, b: int)
    requires 0 <= from < |src| && 0 <= to < |dst|
    requires (b == to && a == from) || (b != to && SameAt(src, a, dst, b))
    ensures SameAt(src, a, dst[to := src[from]], b)
  {
  }

  // Orientations outside 2 to 8 leave the image alone; the others fill a new buffer, each
  // pixel from where it belongs.
  method Orient<Pixel(0)>(src: array<Pixel>, w: nat, h: nat, o: nat) returns (dst: array<Pixel>, dw: nat, dh: nat)
    requires src.Length == w * h
    ensures !(2 <= o <= 8) ==> dst == src && dw == w && dh == h
    ensures 2 <= o <= 8 ==> fresh(dst) && dst.Length == w * h
    ensures 2 <= o <= 8 ==> dw == (if o < 5 then w else h) && dh == (if o < 5 then h else w)
    ensures 2 <= o <= 8 ==> forall p :: Within(p, dw, dh) ==> ShownAt(o, src[..], w, dst[..], dw, dh, p)
  {
    if !(2 <= o <= 8) {
      return src, w, h;
    }
    dw, dh := if o >= 5 then h else w, if o >= 5 then w else h;
    dst := new Pixel[w * h];
    for y := 0 to dh
      invariant forall p :: Within(p, dw, dh) && Earlier(p, 0, y) ==> Copied(o, w, h, src[..], dst[..], p)
    {
      for x := 0 to dw
        invariant forall p :: Within(p, dw, dh) && Earlier(p, x, y) ==> Copied(o, w, h, src[..], dst[..], p)
      {
        var at := Point(x, y);
        var from := Source(o, w, h, at);
        OneMorePixel(o, w, h, src[..], dst[..], at);
        ghost var before := dst[..];
        dst[Offset(at, dw)] := src[Offset(from, w)];
        assert dst[..] == before[Offset(at, dw) := src[..][Offset(from, w)]];
      }
    }
    forall p | Within(p, dw, dh)
      ensures ShownAt(o, src[..], w, dst[..], dw, dh, p)
    {
      assert Copied(o, w, h, src[..], dst[..], p);
      ShownSides(o, w, h, p);
    }
  }
}
