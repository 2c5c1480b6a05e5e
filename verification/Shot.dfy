/**
  The screenshot view of browser_run (internal/agent/browser_run_shot.go): typed text
  is painted over before anything else is drawn, so no pixel a text field touches
  depends on what the field holds. Coordinates are exact reals.
*/
module Shot {
  import opened Wrappers

  const MaxWidth: nat := 1280
  const MaxHeight: nat := 800
  const Stroke: nat := 2
  const MaxControls: nat := 160

  // ----- Controls

  datatype Box = Box(x: real, y: real, w: real, h: real)

  datatype Control = Control(ref: string, role: string, value: string, inViewport: bool, box: Option<Box>)

  datatype Error = MissingBox(ref: string) | Undecodable | NoViewport | CannotScale

  predicate TextEntry(c: Control) {
    c.role in {"textbox", "searchbox", "combobox", "spinbutton"} || c.value != ""
  }

  /** The listed controls that are in the viewport, in order. */
  function InView(controls: seq<Control>): seq<Control> {
    if controls == [] then []
    else InView(controls[..|controls| - 1]) + if controls[|controls| - 1].inViewport then [controls[|controls| - 1]] else []
  }

  function TextEntries(controls: seq<Control>): seq<Control> {
    if controls == [] then []
    else TextEntries(controls[..|controls| - 1]) + if TextEntry(controls[|controls| - 1]) then [controls[|controls| - 1]] else []
  }

  function Cap(controls: seq<Control>): seq<Control> {
    if |controls| <= MaxControls then controls else controls[..MaxControls]
  }

  predicate Boxed(controls: seq<Control>) {
    forall i | 0 <= i < |controls| :: controls[i].inViewport ==> controls[i].box.Some?
  }

  lemma TextEntriesAppend(controls: seq<Control>, c: Control)
    ensures TextEntries(controls + [c]) == if TextEntry(c) then TextEntries(controls) + [c] else TextEntries(controls)
  {
    assert (controls + [c])[..|controls|] == controls;
  }

  lemma CapAppend(controls: seq<Control>, c: Control)
    ensures Cap(controls + [c]) == if |Cap(controls)| < MaxControls then Cap(controls) + [c] else Cap(controls)
  {
  }

  /** What one more control adds to the two picks. */
  lemma PicksNext(controls: seq<Control>, i: nat)
    requires i < |controls|
    ensures var (was, c) := (InView(controls[..i]), controls[i]);
            && (Boxed(controls[..i + 1]) <==> Boxed(controls[..i]) && (c.inViewport ==> c.box.Some?))
            && (!c.inViewport ==> InView(controls[..i + 1]) == was)
            && (c.inViewport ==>
                  && Cap(InView(controls[..i + 1])) == (if |Cap(was)| < MaxControls then Cap(was) + [c] else Cap(was))
                  && TextEntries(InView(controls[..i + 1])) == (if TextEntry(c) then TextEntries(was) + [c] else TextEntries(was)))
  {
    assert controls[..i + 1] == controls[..i] + [controls[i]];
    InViewNext(controls, i);
    CapAppend(InView(controls[..i]), controls[i]);
    TextEntriesAppend(InView(controls[..i]), controls[i]);
  }

  lemma InViewNext(controls: seq<Control>, i: nat)
    requires i < |controls|
    ensures InView(controls[..i + 1]) == if controls[i].inViewport then InView(controls[..i]) + [controls[i]] else InView(controls[..i])
  {
    assert controls[..i + 1][..i] == controls[..i];
  }

  method ShotControls(controls: seq<Control>) returns (r: Result<(seq<Control>, seq<Control>), Error>)
    ensures r.Ok? <==> Boxed(controls)
    ensures r.Ok? ==> r.value == (Cap(InView(controls)), TextEntries(InView(controls)))
    ensures r.Err? ==> exists i :: 0 <= i < |controls| && controls[i].inViewport && controls[i].box.None?
                                   && Boxed(controls[..i]) && r.error == MissingBox(controls[i].ref)
  {
    var drawn: seq<Control>, masked: seq<Control> := [], [];
    for i := 0 to |controls|
      invariant Boxed(controls[..i])
      invariant drawn == Cap(InView(controls[..i])) && masked == TextEntries(InView(controls[..i]))
    {
      var c := controls[i];
      PicksNext(controls, i);
      if !c.inViewport {
        continue;
      }
      if c.box.None? {
        return Err(MissingBox(c.ref));
      }
      if TextEntry(c) {
        masked := masked + [c];
      }
      if |drawn| < MaxControls {
        drawn := drawn + [c];
      }
    }
    assert controls[..|controls|] == controls;
    r := Ok((drawn, masked));
  }

  lemma {:induction false} InViewHolds(controls: seq<Control>, c: Control)
    ensures c in InView(controls) <==> c in controls && c.inViewport
  {
    if controls != [] {
      InViewHolds(controls[..|controls| - 1], c);
      assert controls == controls[..|controls| - 1] + [controls[|controls| - 1]];
    }
  }

  lemma {:induction false} TextEntriesHolds(controls: seq<Control>, c: Control)
    ensures c in TextEntries(controls) <==> c in controls && TextEntry(c)
  {
    if controls != [] {
      TextEntriesHolds(controls[..|controls| - 1], c);
      assert controls == controls[..|controls| - 1] + [controls[|controls| - 1]];
    }
  }

  /** Every text entry in the viewport is masked, past the drawing cap too. */
  lemma EveryFieldIsMasked(controls: seq<Control>, c: Control)
    ensures c in TextEntries(InView(controls)) <==> c in controls && c.inViewport && TextEntry(c)
    ensures c in TextEntries(InView(controls)) <==>
              && c in controls && c.inViewport
              && (c.role == "textbox" || c.role == "searchbox" || c.role == "combobox" || c.role == "spinbutton" || c.value != "")
  {
    TextEntriesHolds(InView(controls), c);
    InViewHolds(controls, c);
  }

  // ----- Rectangles

  datatype Rect = Rect(x0: int, y0: int, x1: int, y1: int)

  predicate In(r: Rect, x: int, y: int) {
    r.x0 <= x < r.x1 && r.y0 <= y < r.y1
  }

  /** image.Rect puts its corners in order. */
  function Ordered(x0: int, y0: int, x1: int, y1: int): Rect {
    Rect(if x0 <= x1 then x0 else x1, if y0 <= y1 then y0 else y1, if x0 <= x1 then x1 else x0, if y0 <= y1 then y1 else y0)
  }

  lemma OrderedKeepsCorners(x0: int, y0: int, x1: int, y1: int)
    ensures var r := Ordered(x0, y0, x1, y1);
            && r.x0 <= r.x1 && r.y0 <= r.y1
            && multiset{r.x0, r.x1} == multiset{x0, x1} && multiset{r.y0, r.y1} == multiset{y0, y1}
  {
  }

  function Min(a: int, b: int): int {
    if a < b then a else b
  }

  function Max(a: int, b: int): int {
    if a < b then b else a
  }

  /** An empty intersection is the zero rectangle. */
  function Intersect(r: Rect, s: Rect): Rect {
    var t := Rect(Max(r.x0, s.x0), Max(r.y0, s.y0), Min(r.x1, s.x1), Min(r.y1, s.y1));
    if t.x0 >= t.x1 || t.y0 >= t.y1 then Rect(0, 0, 0, 0) else t
  }

  function Bounds(w: nat, h: nat): Rect {
    Rect(0, 0, w, h)
  }

  function Ceil(r: real): int {
    -(-r).Floor
  }

  /** A box in image coordinates, before rounding. */
  datatype Quad = Quad(x0: real, y0: real, x1: real, y1: real)

  function Scale(b: Box, sx: real, sy: real): Quad {
    Quad(b.x * sx, b.y * sy, (b.x + b.w) * sx, (b.y + b.h) * sy)
  }

  /** Rounded outward and clipped to the image. */
  function RoundOut(q: Quad, w: nat, h: nat): Rect {
    Intersect(Ordered(q.x0.Floor, q.y0.Floor, Ceil(q.x1), Ceil(q.y1)), Bounds(w, h))
  }

  function ShotRect(b: Box, sx: real, sy: real, w: nat, h: nat): Rect {
    RoundOut(Scale(b, sx, sy), w, h)
  }

  /** The unit square of pixel (x, y) and the scaled box share an area. */
  predicate Overlaps(q: Quad, x: int, y: int) {
    q.x0 < x as real + 1.0 && x as real < q.x1 && q.y0 < y as real + 1.0 && y as real < q.y1
  }

  lemma FloorCeil(r: real, n: int)
    ensures r.Floor <= n <==> r < n as real + 1.0
    ensures n < Ceil(r) <==> (n as real) < r
  {
  }

  lemma FloorBelowCeil(a: real, b: real)
    requires a <= b
    ensures a.Floor <= Ceil(b)
  {
  }

  lemma RoundOutIsExact(q: Quad, w: nat, h: nat, x: int, y: int)
    requires q.x0 <= q.x1 && q.y0 <= q.y1
    ensures In(RoundOut(q, w, h), x, y) <==> 0 <= x < w && 0 <= y < h && Overlaps(q, x, y)
  {
    FloorBelowCeil(q.x0, q.x1);
    FloorBelowCeil(q.y0, q.y1);
    FloorCeil(q.x0, x);
    FloorCeil(q.x1, x);
    FloorCeil(q.y0, y);
    FloorCeil(q.y1, y);
  }

  lemma ScaleKeepsEdges(b: Box, sx: real, sy: real)
    requires b.w >= 0.0 && b.h >= 0.0 && sx > 0.0 && sy > 0.0
    ensures Scale(b, sx, sy).x0 <= Scale(b, sx, sy).x1 && Scale(b, sx, sy).y0 <= Scale(b, sx, sy).y1
  {
    assert (b.x + b.w) * sx == b.x * sx + b.w * sx;
    assert (b.y + b.h) * sy == b.y * sy + b.h * sy;
  }

  /** The rectangle is exactly the pixels of the image that the scaled box touches. */
  lemma RectIsTouchedPixels(b: Box, sx: real, sy: real, w: nat, h: nat, x: int, y: int)
    requires b.w >= 0.0 && b.h >= 0.0 && sx > 0.0 && sy > 0.0
    ensures In(ShotRect(b, sx, sy, w, h), x, y) <==> 0 <= x < w && 0 <= y < h && Overlaps(Scale(b, sx, sy), x, y)
  {
    ScaleKeepsEdges(b, sx, sy);
    RoundOutIsExact(Scale(b, sx, sy), w, h, x, y);
  }

  // ----- The size of the image

  function MinReal(a: real, b: real): real {
    if a < b then a else b
  }

  /** math.Min(1, 1280/w, 800/h). */
  function FitFactor(w: nat, h: nat): real
    requires w > 0 && h > 0
  {
    MinReal(1.0, MinReal(MaxWidth as real / w as real, MaxHeight as real / h as real))
  }

  lemma Product(n: real, a: real, b: real)
    requires n >= 0.0 && a <= b
    ensures n * a <= n * b
  {
  }

  lemma FloorBound(r: real, n: int)
    requires r <= n as real
    ensures r.Floor <= n
  {
  }

  lemma TimesAtMostOne(n: real, a: real)
    requires n >= 0.0 && 0.0 <= a <= 1.0
    ensures 0.0 <= n * a <= n
  {
  }

  lemma TimesQuotient(n: real, max: real)
    requires n > 0.0
    ensures n * (max / n) == max
  {
  }

  lemma ScaledSide(n: nat, max: nat, fit: real)
    requires n > 0 && 0.0 <= fit <= 1.0 && fit <= max as real / n as real
    ensures 0 <= (n as real * fit).Floor <= max && (n as real * fit).Floor <= n
  {
    var m: real, size: real := max as real, n as real;
    Product(size, fit, m / size);
    TimesQuotient(size, m);
    TimesAtMostOne(size, fit);
    FloorBound(size * fit, max);
    FloorBound(size * fit, n);
  }

  /** Whatever the screenshot, the picture fits inside 1280 by 800 and is never enlarged. */
  lemma ShotFits(w: nat, h: nat)
    requires w > 0 && h > 0
    ensures 0 <= Side(w, w, h) <= 1280 && Side(w, w, h) <= w
    ensures 0 <= Side(h, w, h) <= 800 && Side(h, w, h) <= h
  {
    assert MaxWidth as real / w as real > 0.0 && MaxHeight as real / h as real > 0.0;
    ScaledSide(w, MaxWidth, FitFactor(w, h));
    ScaledSide(h, MaxHeight, FitFactor(w, h));
  }

  lemma QuotientIsLess(max: real, n: real)
    requires n > 0.0
    ensures max / n < 1.0 <==> max < n
  {
    TimesQuotient(n, max);
    if max / n < 1.0 {
      assert n * (max / n) < n * 1.0;
    }
    if max / n >= 1.0 {
      Product(n, 1.0, max / n);
    }
  }

  lemma FloorBetween(r: real)
    ensures r.Floor as real <= r < r.Floor as real + 1.0
  {
  }

  /** A common factor keeps the proportions up to the rounding of one pixel. */
  lemma SameFactor(a: real, b: real, f: real)
    requires a > 0.0 && b > 0.0
    ensures (a * f).Floor as real * b < ((b * f).Floor as real + 1.0) * a
  {
    FloorBetween(a * f);
    FloorBetween(b * f);
    var x: real, y: real := (a * f).Floor as real, (b * f).Floor as real + 1.0;
    Product(b, x, a * f);
    assert b * (a * f) == a * (b * f);
    assert a * (b * f) < a * y;
  }

  /** The factor is one, or brings one side to its bound. */
  lemma FitFactorIs(w: nat, h: nat)
    requires w > 0 && h > 0
    ensures w <= 1280 && h <= 800 ==> FitFactor(w, h) == 1.0
    ensures w > 1280 || h > 800 ==> w as real * FitFactor(w, h) == 1280.0 || h as real * FitFactor(w, h) == 800.0
  {
    QuotientIsLess(1280.0, w as real);
    QuotientIsLess(800.0, h as real);
    TimesQuotient(w as real, 1280.0);
    TimesQuotient(h as real, 800.0);
  }

  lemma WholeFloor(n: nat)
    ensures (n as real * 1.0).Floor == n
  {
  }

  lemma ShrunkBy(w: nat, h: nat, f: real)
    requires w > 0 && h > 0 && (w <= 1280 && h <= 800 ==> f == 1.0)
    requires w > 1280 || h > 800 ==> w as real * f == 1280.0 || h as real * f == 800.0
    ensures w <= 1280 && h <= 800 ==> (w as real * f).Floor == w && (h as real * f).Floor == h
    ensures w > 1280 || h > 800 ==> (w as real * f).Floor == 1280 || (h as real * f).Floor == 800
  {
    WholeFloor(w);
    WholeFloor(h);
  }

  lemma Proportions(w: nat, h: nat, f: real, dw: int, dh: int)
    requires w > 0 && h > 0 && dw == (w as real * f).Floor && dh == (h as real * f).Floor
    ensures dw as real * h as real < (dh as real + 1.0) * w as real
  {
    SameFactor(w as real, h as real, f);
  }

  /** A picture within 1280 by 800 keeps its size; any other is shrunk until one side is at its bound. */
  lemma ShrunkNoMoreThanNeeded(w: nat, h: nat)
    requires w > 0 && h > 0
    ensures w <= 1280 && h <= 800 ==> Side(w, w, h) == w && Side(h, w, h) == h
    ensures w > 1280 || h > 800 ==> Side(w, w, h) == 1280 || Side(h, w, h) == 800
  {
    FitFactorIs(w, h);
    ShrunkBy(w, h, FitFactor(w, h));
  }

  /** The proportions are kept, up to the rounding of one pixel. */
  lemma ProportionsAreKept(w: nat, h: nat, dw: int, dh: int)
    requires w > 0 && h > 0 && dw == Side(w, w, h) && dh == Side(h, w, h)
    ensures dw as real * h as real < (dh as real + 1.0) * w as real
    ensures dh as real * w as real < (dw as real + 1.0) * h as real
  {
    Proportions(w, h, FitFactor(w, h), dw, dh);
    Proportions(h, w, FitFactor(w, h), dh, dw);
  }

  /** One side of the scaled picture. */
  function Side(n: nat, w: nat, h: nat): int
    requires w > 0 && h > 0
  {
    (n as real * FitFactor(w, h)).Floor
  }

  // ----- Painting

  datatype Pixel = Rgba(r: nat, g: nat, b: nat, a: nat)

  const MaskColour := Rgba(0, 0, 0, 0xff)
  const MarkColour := Rgba(0xe0, 0x20, 0x80, 0xff)
  const White := Rgba(0xff, 0xff, 0xff, 0xff)

  /** The glyph pixels of a text drawn at a corner; any fixed font. */
  type Font = (string, int, int, int, int) -> bool

  datatype Op = Fill(r: Rect, colour: Pixel) | Text(text: string, x: int, y: int)

  predicate Hits(font: Font, op: Op, x: int, y: int) {
    match op
    case Fill(r, _) => In(r, x, y)
    case Text(text, x0, y0) => font(text, x0, y0, x, y)
  }

  function Colour(op: Op): Pixel {
    match op
    case Fill(_, c) => c
    case Text(_, _, _) => White
  }

  /** A pixel after a list of operations: the last one that hits it decides. */
  function Paint(font: Font, ops: seq<Op>, base: Pixel, x: int, y: int): Pixel {
    if ops == [] then base
    else if Hits(font, ops[|ops| - 1], x, y) then Colour(ops[|ops| - 1])
    else Paint(font, ops[..|ops| - 1], base, x, y)
  }

  lemma {:induction false} HitHidesBase(font: Font, ops: seq<Op>, k: nat, p: Pixel, q: Pixel, x: int, y: int)
    requires k < |ops| && Hits(font, ops[k], x, y)
    ensures Paint(font, ops, p, x, y) == Paint(font, ops, q, x, y)
  {
    if k < |ops| - 1 {
      HitHidesBase(font, ops[..|ops| - 1], k, p, q, x, y);
    }
  }

  /** browserRunStroke: the four sides of the outline. */
  function StrokeOps(r: Rect): seq<Op> {
    [Fill(Ordered(r.x0, r.y0, r.x1, r.y0 + Stroke), MarkColour), Fill(Ordered(r.x0, r.y1 - Stroke, r.x1, r.y1), MarkColour),
     Fill(Ordered(r.x0, r.y0, r.x0 + Stroke, r.y1), MarkColour), Fill(Ordered(r.x1 - Stroke, r.y0, r.x1, r.y1), MarkColour)]
  }

  /** browserRunTag: a filled tag at the corner, then the number; the face is 7 by 13. */
  function TagOps(r: Rect, text: string, w: nat, h: nat): seq<Op> {
    var tag := Intersect(Ordered(r.x0, r.y0, r.x0 + 7 * |text| + 4, r.y0 + 15), Bounds(w, h));
    [Fill(tag, MarkColour), Text(text, tag.x0 + 2, tag.y0 + 2)]
  }

  /** The ref without its prefix. */
  function Number(ref: string): string {
    if |ref| >= 2 && ref[0] == '@' && ref[1] == 'e' then ref[2..] else ref
  }

  predicate AllBoxed(controls: seq<Control>) {
    forall i | 0 <= i < |controls| :: controls[i].box.Some?
  }

  function MaskOps(masked: seq<Control>, sx: real, sy: real, w: nat, h: nat): seq<Op>
    requires AllBoxed(masked)
  {
    if masked == [] then []
    else MaskOps(masked[..|masked| - 1], sx, sy, w, h)
         + [Fill(ShotRect(masked[|masked| - 1].box.value, sx, sy, w, h), MaskColour)]
  }

  function MarkOps(drawn: seq<Control>, sx: real, sy: real, w: nat, h: nat): seq<Op>
    requires AllBoxed(drawn)
  {
    if drawn == [] then []
    else
      var c := drawn[|drawn| - 1];
      var r := ShotRect(c.box.value, sx, sy, w, h);
      MarkOps(drawn[..|drawn| - 1], sx, sy, w, h) + (StrokeOps(r) + TagOps(r, Number(c.ref), w, h))
  }

  // ----- The drawing

  /** The image is the base picture after some operations. */
  ghost predicate Shows(font: Font, dst: array2<Pixel>, base: (int, int) -> Pixel, ops: seq<Op>)
    reads dst
  {
    forall x, y | 0 <= x < dst.Length0 && 0 <= y < dst.Length1 :: dst[x, y] == Paint(font, ops, base(x, y), x, y)
  }

  lemma PaintOne(font: Font, ops: seq<Op>, op: Op, p: Pixel, x: int, y: int)
    ensures Paint(font, ops + [op], p, x, y) == if Hits(font, op, x, y) then Colour(op) else Paint(font, ops, p, x, y)
  {
    assert (ops + [op])[..|ops|] == ops;
  }

  /** draw.Draw with a uniform source; the rectangle is clipped to the image. */
  method FillRect(dst: array2<Pixel>, r: Rect, colour: Pixel)
    modifies dst
    ensures forall x, y | 0 <= x < dst.Length0 && 0 <= y < dst.Length1 ::
              dst[x, y] == if In(r, x, y) then colour else old(dst[x, y])
  {
    var c := Intersect(r, Bounds(dst.Length0, dst.Length1));
    var y := c.y0;
    while y < c.y1
      invariant c.y0 <= y <= c.y1
      invariant forall i, j | 0 <= i < dst.Length0 && 0 <= j < dst.Length1 ::
                  dst[i, j] == if In(c, i, j) && j < y then colour else old(dst[i, j])
    {
      var x := c.x0;
      while x < c.x1
        invariant c.x0 <= x <= c.x1
        invariant forall i, j | 0 <= i < dst.Length0 && 0 <= j < dst.Length1 ::
                    dst[i, j] == if In(c, i, j) && (j < y || (j == y && i < x)) then colour else old(dst[i, j])
      {
        dst[x, y] := colour;
        x := x + 1;
      }
      y := y + 1;
    }
  }

  /** Draws the glyphs of a text in white. */
  method DrawString(font: Font, dst: array2<Pixel>, text: string, x0: int, y0: int)
    modifies dst
    ensures forall x, y | 0 <= x < dst.Length0 && 0 <= y < dst.Length1 ::
              dst[x, y] == if font(text, x0, y0, x, y) then White else old(dst[x, y])
  {
    var y := 0;
    while y < dst.Length1
      invariant 0 <= y <= dst.Length1
      invariant forall i, j | 0 <= i < dst.Length0 && 0 <= j < dst.Length1 ::
                  dst[i, j] == if font(text, x0, y0, i, j) && j < y then White else old(dst[i, j])
    {
      var x := 0;
      while x < dst.Length0
        invariant 0 <= x <= dst.Length0
        invariant forall i, j | 0 <= i < dst.Length0 && 0 <= j < dst.Length1 ::
                    dst[i, j] == if font(text, x0, y0, i, j) && (j < y || (j == y && i < x)) then White else old(dst[i, j])
      {
        if font(text, x0, y0, x, y) {
          dst[x, y] := White;
        }
        x := x + 1;
      }
      y := y + 1;
    }
  }

  method Apply(font: Font, dst: array2<Pixel>, op: Op, ghost base: (int, int) -> Pixel, ghost ops: seq<Op>)
    requires Shows(font, dst, base, ops)
    modifies dst
    ensures Shows(font, dst, base, ops + [op])
  {
    match op
    case Fill(r, c) => FillRect(dst, r, c);
    case Text(text, x, y) => DrawString(font, dst, text, x, y);
    forall x, y | 0 <= x < dst.Length0 && 0 <= y < dst.Length1
      ensures dst[x, y] == Paint(font, ops + [op], base(x, y), x, y)
    {
      PaintOne(font, ops, op, base(x, y), x, y);
    }
  }

  method ApplyAll(font: Font, dst: array2<Pixel>, todo: seq<Op>, ghost base: (int, int) -> Pixel, ghost ops: seq<Op>)
    requires Shows(font, dst, base, ops)
    modifies dst
    ensures Shows(font, dst, base, ops + todo)
  {
    assert ops + todo[..0] == ops;
    for k := 0 to |todo|
      invariant Shows(font, dst, base, ops + todo[..k])
    {
      assert ops + todo[..k + 1] == ops + todo[..k] + [todo[k]];
      Apply(font, dst, todo[k], base, ops + todo[..k]);
    }
    assert todo[..|todo|] == todo;
  }

  /** Every mask, before anything else. */
  method DrawMasks(font: Font, dst: array2<Pixel>, masked: seq<Control>, sx: real, sy: real, ghost base: (int, int) -> Pixel)
    requires AllBoxed(masked) && Shows(font, dst, base, [])
    modifies dst
    ensures Shows(font, dst, base, MaskOps(masked, sx, sy, dst.Length0, dst.Length1))
  {
    for k := 0 to |masked|
      invariant Shows(font, dst, base, MaskOps(masked[..k], sx, sy, dst.Length0, dst.Length1))
    {
      assert masked[..k + 1][..k] == masked[..k];
      var r := ShotRect(masked[k].box.value, sx, sy, dst.Length0, dst.Length1);
      Apply(font, dst, Fill(r, MaskColour), base, MaskOps(masked[..k], sx, sy, dst.Length0, dst.Length1));
    }
    assert masked[..|masked|] == masked;
  }

  /** Outlines and numbers, over whatever is there. */
  method DrawMarks(font: Font, dst: array2<Pixel>, drawn: seq<Control>, sx: real, sy: real,
                   ghost base: (int, int) -> Pixel, ghost ops: seq<Op>)
    requires AllBoxed(drawn) && Shows(font, dst, base, ops)
    modifies dst
    ensures Shows(font, dst, base, ops + MarkOps(drawn, sx, sy, dst.Length0, dst.Length1))
  {
    var w, h := dst.Length0, dst.Length1;
    assert ops + MarkOps(drawn[..0], sx, sy, w, h) == ops;
    for k := 0 to |drawn|
      invariant Shows(font, dst, base, ops + MarkOps(drawn[..k], sx, sy, w, h))
    {
      assert drawn[..k + 1][..k] == drawn[..k];
      var r := ShotRect(drawn[k].box.value, sx, sy, w, h);
      var marks := StrokeOps(r) + TagOps(r, Number(drawn[k].ref), w, h);
      ApplyAll(font, dst, marks, base, ops + MarkOps(drawn[..k], sx, sy, w, h));
      Assoc(ops, MarkOps(drawn[..k], sx, sy, w, h), marks);
    }
    assert drawn[..|drawn|] == drawn;
  }

  /** The whole program of a shot. */
  function ShotOps(drawn: seq<Control>, masked: seq<Control>, sx: real, sy: real, w: nat, h: nat): seq<Op>
    requires AllBoxed(drawn) && AllBoxed(masked)
  {
    MaskOps(masked, sx, sy, w, h) + MarkOps(drawn, sx, sy, w, h)
  }

  /** Image pixels per viewport pixel. */
  function Ratio(side: nat, viewport: int): (r: real)
    requires viewport > 0
    ensures side > 0 ==> r > 0.0
  {
    side as real / viewport as real
  }

  /** One axis of an image of the given side: what lies from lo to hi in the viewport meets pixel p. */
  predicate Along(lo: real, hi: real, side: nat, viewport: int, p: int) {
    p as real * viewport as real < hi * side as real && lo * side as real < (p as real + 1.0) * viewport as real
  }

  /**
    In viewport coordinates: pixel (x, y) of an image of w by h that shows a viewport of
    vw by vh shares an area with the box.
  */
  predicate Touches(b: Box, vw: int, vh: int, w: nat, h: nat, x: int, y: int) {
    && 0 <= x < w && 0 <= y < h && b.w >= 0.0 && b.h >= 0.0
    && Along(b.x, b.x + b.w, w, vw, x) && Along(b.y, b.y + b.h, h, vh, y)
  }

  lemma CrossMultiply(a: real, n: real, d: real, t: real)
    requires d > 0.0
    ensures a * (n / d) < t <==> a * n < t * d
    ensures t < a * (n / d) <==> t * d < a * n
  {
    var q: real := n / d;
    assert q * d == n;
    assert (a * q) * d == a * n;
    if a * q < t {
      assert (a * q) * d < t * d;
    }
    if t < a * q {
      assert t * d < (a * q) * d;
    }
  }

  /** The same axis in image pixels. */
  predicate Under(lo: real, hi: real, scale: real, p: int) {
    lo * scale < p as real + 1.0 && p as real < hi * scale
  }

  lemma AlongIsUnder(lo: real, hi: real, side: nat, viewport: int, p: int)
    requires viewport > 0
    ensures Along(lo, hi, side, viewport, p) <==> Under(lo, hi, Ratio(side, viewport), p)
  {
    CrossMultiply(lo, side as real, viewport as real, p as real + 1.0);
    CrossMultiply(hi, side as real, viewport as real, p as real);
  }

  /** Overlapping one axis at a time. */
  lemma OverlapsByAxis(b: Box, sx: real, sy: real, x: int, y: int)
    ensures Overlaps(Scale(b, sx, sy), x, y) <==> Under(b.x, b.x + b.w, sx, x) && Under(b.y, b.y + b.h, sy, y)
  {
  }

  lemma TouchesIsOverlap(b: Box, vw: int, vh: int, w: nat, h: nat, x: int, y: int)
    requires vw > 0 && vh > 0 && b.w >= 0.0 && b.h >= 0.0
    ensures Touches(b, vw, vh, w, h, x, y)
       <==> 0 <= x < w && 0 <= y < h && Overlaps(Scale(b, Ratio(w, vw), Ratio(h, vh)), x, y)
  {
    AlongIsUnder(b.x, b.x + b.w, w, vw, x);
    AlongIsUnder(b.y, b.y + b.h, h, vh, y);
    OverlapsByAxis(b, Ratio(w, vw), Ratio(h, vh), x, y);
  }

  lemma {:induction false} HitIsOurs(font: Font, ops: seq<Op>, k: nat, p: Pixel, x: int, y: int)
    requires k < |ops| && Hits(font, ops[k], x, y)
    requires forall i | 0 <= i < |ops| :: Colour(ops[i]) in {MaskColour, MarkColour, White}
    ensures Paint(font, ops, p, x, y) in {MaskColour, MarkColour, White}
  {
    var last := |ops| - 1;
    if !Hits(font, ops[last], x, y) {
      HitIsOurs(font, ops[..last], k, p, x, y);
    }
  }

  lemma {:induction false} MaskColours(masked: seq<Control>, sx: real, sy: real, w: nat, h: nat)
    requires AllBoxed(masked)
    ensures forall i | 0 <= i < |MaskOps(masked, sx, sy, w, h)| :: Colour(MaskOps(masked, sx, sy, w, h)[i]) == MaskColour
  {
    if masked != [] {
      MaskColours(masked[..|masked| - 1], sx, sy, w, h);
    }
  }

  lemma {:induction false} MarkColours(drawn: seq<Control>, sx: real, sy: real, w: nat, h: nat)
    requires AllBoxed(drawn)
    ensures forall i | 0 <= i < |MarkOps(drawn, sx, sy, w, h)| :: Colour(MarkOps(drawn, sx, sy, w, h)[i]) in {MarkColour, White}
  {
    if drawn != [] {
      var last := drawn[|drawn| - 1];
      var r := ShotRect(last.box.value, sx, sy, w, h);
      MarkColours(drawn[..|drawn| - 1], sx, sy, w, h);
      assert forall i | 0 <= i < |StrokeOps(r) + TagOps(r, Number(last.ref), w, h)| ::
        Colour((StrokeOps(r) + TagOps(r, Number(last.ref), w, h))[i]) in {MarkColour, White};
    }
  }

  /** Where a masked field is on the page, the image shows nothing but our own colours. */
  lemma FieldIsPaintedOver(font: Font, drawn: seq<Control>, masked: seq<Control>, c: Control, vw: int, vh: int, w: nat, h: nat,
                           p: Pixel, x: int, y: int)
    requires AllBoxed(drawn) && AllBoxed(masked) && c in masked && vw > 0 && vh > 0
    requires Touches(c.box.value, vw, vh, w, h, x, y)
    ensures Paint(font, ShotOps(drawn, masked, Ratio(w, vw), Ratio(h, vh), w, h), p, x, y) in {MaskColour, MarkColour, White}
  {
    var sx, sy := Ratio(w, vw), Ratio(h, vh);
    TouchesIsOverlap(c.box.value, vw, vh, w, h, x, y);
    RectIsTouchedPixels(c.box.value, sx, sy, w, h, x, y);
    var k := MaskOpsHolds(masked, c, sx, sy, w, h);
    MaskColours(masked, sx, sy, w, h);
    MarkColours(drawn, sx, sy, w, h);
    HitIsOurs(font, ShotOps(drawn, masked, sx, sy, w, h), k, p, x, y);
  }

  method Render(font: Font, dw: nat, dh: nat, resample: (int, int) -> Pixel, sx: real, sy: real,
                drawn: seq<Control>, masked: seq<Control>) returns (dst: array2<Pixel>)
    requires AllBoxed(drawn) && AllBoxed(masked)
    ensures fresh(dst) && dst.Length0 == dw && dst.Length1 == dh
    ensures Shows(font, dst, resample, ShotOps(drawn, masked, sx, sy, dw, dh))
  {
    dst := new Pixel[dw, dh]((x: nat, y: nat) => resample(x, y));
    forall x, y | 0 <= x < dw && 0 <= y < dh
      ensures dst[x, y] == Paint(font, [], resample(x, y), x, y)
    {
      assert dst[x, y] == resample(x, y);
    }
    DrawMasks(font, dst, masked, sx, sy, resample);
    DrawMarks(font, dst, drawn, sx, sy, resample, MaskOps(masked, sx, sy, dw, dh));
  }

  /**
    browserRunDrawShot: size is the decoded screenshot's, resample the scaled picture.
    Errors come in the source's order.
  */
  method DrawShot(font: Font, size: Option<(nat, nat)>, resample: (int, int) -> Pixel, vw: int, vh: int,
                  drawn: seq<Control>, masked: seq<Control>) returns (r: Result<array2<Pixel>, Error>)
    requires AllBoxed(drawn) && AllBoxed(masked)
    ensures size.None? ==> r == Err(Undecodable)
    ensures size.Some? && (vw <= 0 || vh <= 0) ==> r == Err(NoViewport)
    ensures size.Some? && vw > 0 && vh > 0 ==> (r.Ok? <==> Scalable(size.value)) && (r.Err? ==> r == Err(CannotScale))
    ensures r.Ok? ==>
      && fresh(r.value) && r.value.Length0 == Side(size.value.0, size.value.0, size.value.1)
      && r.value.Length1 == Side(size.value.1, size.value.0, size.value.1)
      && 1 <= r.value.Length0 <= 1280 && 1 <= r.value.Length1 <= 800
      && Shows(font, r.value, resample,
               ShotOps(drawn, masked, Ratio(r.value.Length0, vw), Ratio(r.value.Length1, vh), r.value.Length0, r.value.Length1))
    ensures r.Ok? ==> forall c, x, y | c in masked && Touches(c.box.value, vw, vh, r.value.Length0, r.value.Length1, x, y) ::
              r.value[x, y] in {MaskColour, MarkColour, White}
  {
    if size.None? {
      return Err(Undecodable);
    }
    if vw <= 0 || vh <= 0 {
      return Err(NoViewport);
    }
    var (bw, bh) := size.value;
    if bw == 0 || bh == 0 {
      return Err(CannotScale);
    }
    ShotFits(bw, bh);
    var dw, dh := Side(bw, bw, bh), Side(bh, bw, bh);
    if dw < 1 || dh < 1 {
      return Err(CannotScale);
    }
    var dst := Render(font, dw, dh, resample, Ratio(dw, vw), Ratio(dh, vh), drawn, masked);
    forall c, x, y | c in masked && Touches(c.box.value, vw, vh, dw, dh, x, y)
      ensures dst[x, y] in {MaskColour, MarkColour, White}
    {
      FieldIsPaintedOver(font, drawn, masked, c, vw, vh, dw, dh, resample(x, y), x, y);
    }
    r := Ok(dst);
  }

  /** A decoded screenshot whose scaled sides are at least one pixel. */
  predicate Scalable(size: (nat, nat)) {
    size.0 > 0 && size.1 > 0 && Side(size.0, size.0, size.1) >= 1 && Side(size.1, size.0, size.1) >= 1
  }

  // ----- What the picture gives away

  lemma {:induction false} MaskOpsHolds(masked: seq<Control>, c: Control, sx: real, sy: real, w: nat, h: nat) returns (k: nat)
    requires AllBoxed(masked) && c in masked
    ensures k < |MaskOps(masked, sx, sy, w, h)| && MaskOps(masked, sx, sy, w, h)[k] == Fill(ShotRect(c.box.value, sx, sy, w, h), MaskColour)
  {
    if masked[|masked| - 1] == c {
      k := |MaskOps(masked, sx, sy, w, h)| - 1;
    } else {
      k := MaskOpsHolds(masked[..|masked| - 1], c, sx, sy, w, h);
    }
  }

  /** A masked pixel of the final image does not depend on the screenshot, whatever is drawn over it later. */
  lemma MaskedPixelIsHidden(font: Font, drawn: seq<Control>, masked: seq<Control>, c: Control, sx: real, sy: real, w: nat, h: nat,
                            p: Pixel, q: Pixel, x: int, y: int)
    requires AllBoxed(drawn) && AllBoxed(masked) && c in masked && In(ShotRect(c.box.value, sx, sy, w, h), x, y)
    ensures Paint(font, ShotOps(drawn, masked, sx, sy, w, h), p, x, y) == Paint(font, ShotOps(drawn, masked, sx, sy, w, h), q, x, y)
  {
    var k := MaskOpsHolds(masked, c, sx, sy, w, h);
    HitHidesBase(font, ShotOps(drawn, masked, sx, sy, w, h), k, p, q, x, y);
  }

  /** Pixel (x, y) lies under some mask. */
  ghost predicate Covered(masked: seq<Control>, sx: real, sy: real, w: nat, h: nat, x: int, y: int)
    requires AllBoxed(masked)
  {
    exists c :: c in masked && In(ShotRect(c.box.value, sx, sy, w, h), x, y)
  }

  /** Two scaled pictures that agree outside the masks give the same final image. */
  lemma PicturesAgree(font: Font, drawn: seq<Control>, masked: seq<Control>, sx: real, sy: real,
                      a: array2<Pixel>, b: array2<Pixel>, base: (int, int) -> Pixel, other: (int, int) -> Pixel)
    requires AllBoxed(drawn) && AllBoxed(masked) && a.Length0 == b.Length0 && a.Length1 == b.Length1
    requires Shows(font, a, base, ShotOps(drawn, masked, sx, sy, a.Length0, a.Length1))
    requires Shows(font, b, other, ShotOps(drawn, masked, sx, sy, a.Length0, a.Length1))
    requires forall x, y | 0 <= x < a.Length0 && 0 <= y < a.Length1 && !Covered(masked, sx, sy, a.Length0, a.Length1, x, y) ::
               base(x, y) == other(x, y)
    ensures forall x, y | 0 <= x < a.Length0 && 0 <= y < a.Length1 :: a[x, y] == b[x, y]
  {
    forall x, y | 0 <= x < a.Length0 && 0 <= y < a.Length1
      ensures a[x, y] == b[x, y]
    {
      if Covered(masked, sx, sy, a.Length0, a.Length1, x, y) {
        var c :| c in masked && In(ShotRect(c.box.value, sx, sy, a.Length0, a.Length1), x, y);
        MaskedPixelIsHidden(font, drawn, masked, c, sx, sy, a.Length0, a.Length1, base(x, y), other(x, y), x, y);
      }
    }
  }

  /**
    From the listing to the picture: a pixel that the box of any text field in the
    viewport touches, past the drawing cap or not, says nothing of the screenshot.
  */
  lemma TypedTextStaysOut(font: Font, controls: seq<Control>, c: Control, sx: real, sy: real, w: nat, h: nat, p: Pixel, q: Pixel, x: int, y: int)
    requires Boxed(controls) && c in controls && c.inViewport && TextEntry(c)
    requires c.box.value.w >= 0.0 && c.box.value.h >= 0.0 && sx > 0.0 && sy > 0.0
    requires 0 <= x < w && 0 <= y < h && Overlaps(Scale(c.box.value, sx, sy), x, y)
    ensures AllBoxed(Cap(InView(controls))) && AllBoxed(TextEntries(InView(controls)))
    ensures var ops := ShotOps(Cap(InView(controls)), TextEntries(InView(controls)), sx, sy, w, h);
            Paint(font, ops, p, x, y) == Paint(font, ops, q, x, y)
  {
    PicksAreBoxed(controls);
    EveryFieldIsMasked(controls, c);
    RectIsTouchedPixels(c.box.value, sx, sy, w, h, x, y);
    MaskedPixelIsHidden(font, Cap(InView(controls)), TextEntries(InView(controls)), c, sx, sy, w, h, p, q, x, y);
  }

  lemma PicksAreBoxed(controls: seq<Control>)
    requires Boxed(controls)
    ensures AllBoxed(Cap(InView(controls))) && AllBoxed(TextEntries(InView(controls)))
  {
    forall c | c in InView(controls)
      ensures c.box.Some?
    {
      InViewHolds(controls, c);
    }
    forall i | 0 <= i < |TextEntries(InView(controls))|
      ensures TextEntries(InView(controls))[i].box.Some?
    {
      TextEntriesHolds(InView(controls), TextEntries(InView(controls))[i]);
    }
  }

  /**
    Two shots of the same listing that differ only in the picture of the page show the
    same pixel wherever a text field in the viewport is, in viewport coordinates.
  */
  lemma FieldsLookAlike(font: Font, controls: seq<Control>, c: Control, vw: int, vh: int, a: array2<Pixel>, b: array2<Pixel>,
                        base: (int, int) -> Pixel, other: (int, int) -> Pixel, x: int, y: int)
    requires Boxed(controls) && c in controls && c.inViewport && TextEntry(c) && vw > 0 && vh > 0
    requires AllBoxed(Cap(InView(controls))) && AllBoxed(TextEntries(InView(controls)))
    requires a.Length0 == b.Length0 && a.Length1 == b.Length1 && Touches(c.box.value, vw, vh, a.Length0, a.Length1, x, y)
    requires Shows(font, a, base, ShotOps(Cap(InView(controls)), TextEntries(InView(controls)),
                                          Ratio(a.Length0, vw), Ratio(a.Length1, vh), a.Length0, a.Length1))
    requires Shows(font, b, other, ShotOps(Cap(InView(controls)), TextEntries(InView(controls)),
                                           Ratio(a.Length0, vw), Ratio(a.Length1, vh), a.Length0, a.Length1))
    ensures a[x, y] == b[x, y] && a[x, y] in {MaskColour, MarkColour, White}
  {
    var drawn, masked := Cap(InView(controls)), TextEntries(InView(controls));
    EveryFieldIsMasked(controls, c);
    TouchesIsOverlap(c.box.value, vw, vh, a.Length0, a.Length1, x, y);
    TypedTextStaysOut(font, controls, c, Ratio(a.Length0, vw), Ratio(a.Length1, vh), a.Length0, a.Length1, base(x, y), other(x, y), x, y);
    FieldIsPaintedOver(font, drawn, masked, c, vw, vh, a.Length0, a.Length1, base(x, y), x, y);
  }

  // ----- What is drawn

  /** The outline of a rectangle that is not too small is its frame, two pixels thick. */
  lemma StrokeIsFrame(font: Font, r: Rect, x: int, y: int)
    requires r.x0 + 2 <= r.x1 && r.y0 + 2 <= r.y1
    ensures (exists k | 0 <= k < |StrokeOps(r)| :: Hits(font, StrokeOps(r)[k], x, y))
       <==> In(r, x, y) && (x < r.x0 + 2 || r.x1 - 2 <= x || y < r.y0 + 2 || r.y1 - 2 <= y)
    ensures forall k | 0 <= k < |StrokeOps(r)| :: Colour(StrokeOps(r)[k]) == MarkColour
  {
    var ops := StrokeOps(r);
    assert Hits(font, ops[0], x, y) <==> r.x0 <= x < r.x1 && r.y0 <= y < r.y0 + 2;
    assert Hits(font, ops[1], x, y) <==> r.x0 <= x < r.x1 && r.y1 - 2 <= y < r.y1;
    assert Hits(font, ops[2], x, y) <==> r.x0 <= x < r.x0 + 2 && r.y0 <= y < r.y1;
    assert Hits(font, ops[3], x, y) <==> r.x1 - 2 <= x < r.x1 && r.y0 <= y < r.y1;
  }

  /** The tag stands at the top-left corner, is clipped to the image, and the number stands on it. */
  lemma TagIsAtCorner(font: Font, r: Rect, text: string, w: nat, h: nat, x: int, y: int)
    requires 0 <= r.x0 < w && 0 <= r.y0 < h
    ensures |TagOps(r, text, w, h)| == 2
    ensures Hits(font, TagOps(r, text, w, h)[0], x, y)
       <==> r.x0 <= x < r.x0 + 7 * |text| + 4 && r.y0 <= y < r.y0 + 15 && x < w && y < h
    ensures Colour(TagOps(r, text, w, h)[0]) == MarkColour
    ensures TagOps(r, text, w, h)[1] == Text(text, r.x0 + 2, r.y0 + 2)
  {
    var tag := Intersect(Ordered(r.x0, r.y0, r.x0 + 7 * |text| + 4, r.y0 + 15), Bounds(w, h));
    assert tag.x0 == r.x0 && tag.y0 == r.y0;
  }

  lemma NumberDropsThePrefix(ref: string)
    ensures Number("@e" + ref) == ref
    ensures !("@e" <= ref) ==> Number(ref) == ref
  {
  }

  /** A box that is nowhere in the image gives the zero rectangle. */
  lemma NowhereIsZero(b: Box, vw: int, vh: int, w: nat, h: nat)
    requires vw > 0 && vh > 0 && b.w >= 0.0 && b.h >= 0.0 && w > 0 && h > 0
    ensures ShotRect(b, Ratio(w, vw), Ratio(h, vh), w, h) == Rect(0, 0, 0, 0)
            || exists x, y :: Touches(b, vw, vh, w, h, x, y)
  {
    var r := ShotRect(b, Ratio(w, vw), Ratio(h, vh), w, h);
    if r.x0 < r.x1 && r.y0 < r.y1 {
      RectIsTouchedPixels(b, Ratio(w, vw), Ratio(h, vh), w, h, r.x0, r.y0);
      TouchesIsOverlap(b, vw, vh, w, h, r.x0, r.y0);
    }
  }

  /** At most the first 160 controls of the viewport are drawn, in order. */
  lemma DrawnAreTheFirst(controls: seq<Control>)
    ensures Cap(InView(controls)) <= InView(controls)
    ensures |Cap(InView(controls))| == if |InView(controls)| <= 160 then |InView(controls)| else 160
  {
  }
}
