/** The layout arithmetic of the Cairo sharepic renderer (template.py): the type
    scale, the vertically centred stack of card rectangles, and the positions of
    the texts drawn on the canvas. Text extents come from the font engine and are
    inputs here; every length is an exact real. */
module Template {
  import opened Wrappers

  // Canvas and unit constants.
  const WIDTH_PTS: real := 1080.0
  const HEIGHT_PTS: real := 1350.0
  const DPI: real := 96.0
  const MM_TO_UNITS: real := DPI / 25.4

  // BoxOfRectangles' class constants: card height and width, vertical padding.
  const RECT_H: real := 30.0 * MM_TO_UNITS
  const RECT_W: real := (1.0 - 4.0 / 30.0) * WIDTH_PTS
  const H_PAD: real := 1.0 / 30.0 * WIDTH_PTS

  // SharepicGenerator's constants.
  const LOGO_WIDTH: real := 200.0
  const LOGO_Y: real := 70.0
  const BOTTOM_Y: real := 315.0 * MM_TO_UNITS
  const FOOTER_Y: real := 0.93 * HEIGHT_PTS
  const LABEL_X: real := 0.09 * WIDTH_PTS
  const DATE_GAP: real := 20.0

  /** The constants in closed form. */
  lemma ConstantValues()
    ensures MM_TO_UNITS == 480.0 / 127.0
    ensures RECT_H == 14400.0 / 127.0
    ensures RECT_W == 936.0 && H_PAD == 36.0
    ensures (WIDTH_PTS - RECT_W) / 2.0 == 72.0
    ensures BOTTOM_Y == 151200.0 / 127.0
  {
  }

  // ---------------------------------------------------------------- TypeScale

  /** The named font sizes of a type scale. */
  datatype TypeScale = TypeScale(
    H1: real, H2: real, H3: real, H4: real, H5: real,
    BODY: real, CAPTION: real, SMALL: real)

  function Pow(r: real, k: nat): real {
    if k == 0 then 1.0 else r * Pow(r, k - 1)
  }

  /** `TypeScale(base_size, scale_ratio)`: headings grow by the ratio per level
      above the body size, caption and small text shrink by it. */
  function NewTypeScale(baseSize: real, scaleRatio: real): (t: TypeScale)
    requires scaleRatio != 0.0
    ensures t.BODY == baseSize
    ensures t.CAPTION * scaleRatio == baseSize
    ensures t.SMALL * scaleRatio == t.CAPTION
  {
    var h5 := scaleRatio * baseSize;
    var h4 := scaleRatio * h5;
    var h3 := scaleRatio * h4;
    var h2 := scaleRatio * h3;
    var h1 := scaleRatio * h2;
    var caption := baseSize / scaleRatio;
    TypeScale(h1, h2, h3, h4, h5, baseSize, caption, caption / scaleRatio)
  }

  /** Heading `Hk` is `ratio^(6-k)` times the body size. */
  lemma TypeScaleClosedForm(baseSize: real, scaleRatio: real)
    requires scaleRatio != 0.0
    ensures var t := NewTypeScale(baseSize, scaleRatio);
      && t.H5 == Pow(scaleRatio, 1) * baseSize
      && t.H4 == Pow(scaleRatio, 2) * baseSize
      && t.H3 == Pow(scaleRatio, 3) * baseSize
      && t.H2 == Pow(scaleRatio, 4) * baseSize
      && t.H1 == Pow(scaleRatio, 5) * baseSize
  {
    var t := NewTypeScale(baseSize, scaleRatio);
    var r := scaleRatio;
    PowStep(r, 0, baseSize);
    PowStep(r, 1, baseSize);
    PowStep(r, 2, baseSize);
    PowStep(r, 3, baseSize);
    PowStep(r, 4, baseSize);
  }

  lemma PowStep(r: real, k: nat, x: real)
    ensures Pow(r, k + 1) * x == r * (Pow(r, k) * x)
  {
    var p := Pow(r, k);
    assert Pow(r, k + 1) == r * p;
    assert (r * p) * x == r * (p * x);
  }

  lemma GrowsByRatio(x: real, y: real, r: real)
    requires x > 0.0 && r > 1.0 && y == r * x
    ensures y > x > 0.0
  {
  }

  lemma ShrinksByRatio(x: real, y: real, r: real)
    requires x > 0.0 && r > 1.0 && y == x / r
    ensures x > y > 0.0
  {
    assert y * r == x;
    assert y > 0.0;
    assert x - y == y * (r - 1.0);
  }

  /** For a positive base and a ratio above one the ladder is strictly decreasing. */
  lemma TypeScaleDecreasing(baseSize: real, scaleRatio: real)
    requires baseSize > 0.0 && scaleRatio > 1.0
    ensures var t := NewTypeScale(baseSize, scaleRatio);
      t.H1 > t.H2 > t.H3 > t.H4 > t.H5 > t.BODY > t.CAPTION > t.SMALL > 0.0
  {
    var r := scaleRatio;
    var t := NewTypeScale(baseSize, r);
    GrowsByRatio(t.BODY, t.H5, r);
    GrowsByRatio(t.H5, t.H4, r);
    GrowsByRatio(t.H4, t.H3, r);
    GrowsByRatio(t.H3, t.H2, r);
    GrowsByRatio(t.H2, t.H1, r);
    ShrinksByRatio(t.BODY, t.CAPTION, r);
    ShrinksByRatio(t.CAPTION, t.SMALL, r);
  }

  /** The scale the generator uses, `TypeScale(32, 1.2)`. */
  lemma DefaultTypeScale()
    ensures NewTypeScale(32.0, 1.2) == TypeScale(
      79.62624, 66.3552, 55.296, 46.08, 38.4, 32.0, 80.0 / 3.0, 200.0 / 9.0)
  {
  }

  // --------------------------------------------------------- BoxOfRectangles

  /** A point on the canvas; y grows downwards. */
  datatype Coordinate = Coordinate(x: real, y: real)

  /** Raised when the stack of cards ends below the allowed bottom; it carries
      the y position where the lowest card ends and the bound it passed. */
  datatype OverflowingHBoxError = OverflowingHBoxError(lowestRectY: real, bottomY: real)

  /** The constructed box: its top-left card corners in insertion order, which is
      also the order `__iter__` yields them. `totalHeight` is set to 0 and never
      updated by the source. */
  datatype BoxOfRectangles = BoxOfRectangles(totalHeight: real, rectangles: seq<Coordinate>)

  /** Horizontal position shared by every card: centred on the canvas. */
  function RectX(): real {
    (WIDTH_PTS - RECT_W) / 2.0
  }

  /** Vertical midpoint of the region between `topY` and `bottomY`. */
  function CenterOfBox(topY: real, bottomY: real): real {
    topY + (bottomY - topY) / 2.0
  }

  /** Height of `n` stacked cards with padding between neighbours. */
  function StackHeight(n: nat): (h: real)
    ensures h + H_PAD == n as real * (RECT_H + H_PAD)
    ensures n >= 1 ==> h >= RECT_H
  {
    n as real * RECT_H + (n as real - 1.0) * H_PAD
  }

  /** y of the first card: half of the stack (n/2 cards and n/2 - 0.5 paddings)
      lies above the midpoint. */
  function YStart(n: nat, topY: real, bottomY: real): (y: real)
    ensures y + StackHeight(n) / 2.0 == CenterOfBox(topY, bottomY)
  {
    var nRectanglesUpperHalf := n as real / 2.0;
    var nPadsUpperHalf := nRectanglesUpperHalf - 0.5;
    CenterOfBox(topY, bottomY) - (nRectanglesUpperHalf * RECT_H + nPadsUpperHalf * H_PAD)
  }

  /** The outcome of `BoxOfRectangles(n, top_y, bottom_y)` in closed form: card `i`
      starts `i` steps of `RECT_H + H_PAD` below the first, and the box fails when
      the lowest card ends below `bottomY`. */
  function Box(n: nat, topY: real, bottomY: real): (r: Result<BoxOfRectangles, OverflowingHBoxError>)
    requires topY < bottomY
    ensures r.Success? ==> |r.value.rectangles| == n && r.value.totalHeight == 0.0
    ensures r.Failure? ==> r.error.bottomY == bottomY && r.error.lowestRectY > bottomY
  {
    var start := YStart(n, topY, bottomY);
    var lowestRectY := start + n as real * (RECT_H + H_PAD) - H_PAD;
    if lowestRectY > bottomY then
      Failure(OverflowingHBoxError(lowestRectY, bottomY))
    else
      Success(BoxOfRectangles(0.0, seq(n, i requires 0 <= i < n =>
        Coordinate(RectX(), start + i as real * (RECT_H + H_PAD)))))
  }

  /** `BoxOfRectangles.__init__`: appends one card per iteration while advancing
      the running y position, then checks where the lowest card ends. */
  method NewBoxOfRectangles(nRectangles: nat, topY: real, bottomY: real)
    returns (r: Result<BoxOfRectangles, OverflowingHBoxError>)
    requires topY < bottomY
    ensures r == Box(nRectangles, topY, bottomY)
  {
    var totalHeight := 0.0;
    var nRectanglesUpperHalf := nRectangles as real / 2.0;
    var nPadsUpperHalf := nRectanglesUpperHalf - 0.5;
    var boxHeight := bottomY - topY;
    var centerOfBox := topY + boxHeight / 2.0;
    var yPosStart := centerOfBox - (nRectanglesUpperHalf * RECT_H + nPadsUpperHalf * H_PAD);

    var rectangles: seq<Coordinate> := [];
    var currentYPos := yPosStart;
    for k := 0 to nRectangles
      invariant |rectangles| == k
      invariant currentYPos == yPosStart + k as real * (RECT_H + H_PAD)
      invariant forall i :: 0 <= i < k ==>
        rectangles[i] == Coordinate(RectX(), yPosStart + i as real * (RECT_H + H_PAD))
    {
      rectangles := rectangles + [Coordinate((WIDTH_PTS - RECT_W) / 2.0, currentYPos)];
      currentYPos := currentYPos + RECT_H + H_PAD;
    }

    var lowestRectY := currentYPos - H_PAD;
    if lowestRectY > bottomY {
      return Failure(OverflowingHBoxError(lowestRectY, bottomY));
    }
    r := Success(BoxOfRectangles(totalHeight, rectangles));
    assert r.value.rectangles == Box(nRectangles, topY, bottomY).value.rectangles;
  }

  /** Overflow happens exactly when the stack is taller than the region; the error
      reports the bottom edge the lowest card would have had. */
  lemma BoxOverflow(n: nat, topY: real, bottomY: real)
    requires topY < bottomY
    ensures Box(n, topY, bottomY).Failure? <==> StackHeight(n) > bottomY - topY
    ensures Box(n, topY, bottomY).Failure? ==>
      Box(n, topY, bottomY).error ==
        OverflowingHBoxError(CenterOfBox(topY, bottomY) + StackHeight(n) / 2.0, bottomY)
  {
  }

  /** A stack exactly as tall as the region fits; one unit less and it overflows. */
  lemma BoxBoundary(n: nat, topY: real)
    requires n >= 1
    ensures Box(n, topY, topY + StackHeight(n)).Success?
    ensures Box(n, topY, topY + StackHeight(n) - 1.0).Failure?
  {
    ConstantValues();
    assert StackHeight(n) >= RECT_H;
    BoxOverflow(n, topY, topY + StackHeight(n));
    BoxOverflow(n, topY, topY + StackHeight(n) - 1.0);
  }

  /** No cards never overflow and give an empty box. */
  lemma BoxEmpty(topY: real, bottomY: real)
    requires topY < bottomY
    ensures Box(0, topY, bottomY) == Success(BoxOfRectangles(0.0, []))
  {
    assert YStart(0, topY, bottomY) - H_PAD < bottomY;
    assert Box(0, topY, bottomY).Success?;
    assert Box(0, topY, bottomY).value.rectangles == [];
  }

  /** A box that does not overflow holds exactly `n` cards, all at the centred x. */
  lemma BoxShape(n: nat, topY: real, bottomY: real)
    requires topY < bottomY && Box(n, topY, bottomY).Success?
    ensures var rs := Box(n, topY, bottomY).value.rectangles;
      |rs| == n && forall i :: 0 <= i < n ==> rs[i].x == 72.0
  {
    ConstantValues();
    var rs := Box(n, topY, bottomY).value.rectangles;
    forall i | 0 <= i < n ensures rs[i].x == 72.0 {
      assert rs[i].x == RectX();
    }
  }

  /** Neighbouring cards are exactly `RECT_H + H_PAD` apart, so any later card
      starts at least `H_PAD` below the end of an earlier one. */
  lemma BoxSpacing(n: nat, topY: real, bottomY: real)
    requires topY < bottomY && Box(n, topY, bottomY).Success?
    ensures var rs := Box(n, topY, bottomY).value.rectangles;
      (forall i :: 0 <= i < n - 1 ==> rs[i + 1].y == rs[i].y + RECT_H + H_PAD) &&
      (forall i, j :: 0 <= i < j < n ==> rs[i].y + RECT_H + H_PAD <= rs[j].y)
  {
    var rs := Box(n, topY, bottomY).value.rectangles;
    forall i, j | 0 <= i < j < n ensures rs[i].y + RECT_H + H_PAD <= rs[j].y {
      var d := (j - i) as real;
      assert rs[j].y - rs[i].y == d * (RECT_H + H_PAD);
    }
  }

  /** The stack is symmetric about the midpoint: it reaches as far above it as
      below it, half of the stack height each way. */
  lemma BoxSymmetric(n: nat, topY: real, bottomY: real)
    requires topY < bottomY && n >= 1 && Box(n, topY, bottomY).Success?
    ensures var rs := Box(n, topY, bottomY).value.rectangles;
      var c := CenterOfBox(topY, bottomY);
      c - rs[0].y == rs[n - 1].y + RECT_H - c == n as real / 2.0 * RECT_H + (n as real - 1.0) / 2.0 * H_PAD
  {
  }

  /** For an odd number of cards the middle one is centred on the midpoint. */
  lemma BoxMiddleCentred(m: nat, topY: real, bottomY: real)
    requires topY < bottomY && Box(2 * m + 1, topY, bottomY).Success?
    ensures Box(2 * m + 1, topY, bottomY).value.rectangles[m].y + RECT_H / 2.0
      == CenterOfBox(topY, bottomY)
  {
  }

  /** Although only the lower edge is checked, every card of a box that does not
      overflow lies between `topY` and `bottomY`. */
  lemma BoxContained(n: nat, topY: real, bottomY: real)
    requires topY < bottomY && Box(n, topY, bottomY).Success?
    ensures var rs := Box(n, topY, bottomY).value.rectangles;
      forall i :: 0 <= i < n ==> topY <= rs[i].y && rs[i].y + RECT_H <= bottomY
  {
    var rs := Box(n, topY, bottomY).value.rectangles;
    BoxOverflow(n, topY, bottomY);
    forall i | 0 <= i < n ensures topY <= rs[i].y && rs[i].y + RECT_H <= bottomY {
      assert rs[i].y == YStart(n, topY, bottomY) + i as real * (RECT_H + H_PAD);
      assert i as real * (RECT_H + H_PAD) <= (n as real - 1.0) * (RECT_H + H_PAD);
    }
  }

  // ------------------------------------------------------ SharepicGenerator

  /** Width and height of a rendered text as the font engine measures them. */
  datatype TextExtents = TextExtents(width: real, height: real)

  /** x at which a text of the given width starts so that it is centred on the canvas. */
  function CenteredX(textWidth: real): (x: real)
    ensures x + textWidth / 2.0 == WIDTH_PTS / 2.0
    ensures WIDTH_PTS - (x + textWidth) == x
  {
    (WIDTH_PTS - textWidth) / 2.0
  }

  /** `_draw_logo`: the logo is centred horizontally, 70 units from the top. */
  function LogoPosition(): (c: Coordinate)
    ensures c == Coordinate(440.0, 70.0)
  {
    Coordinate(CenteredX(LOGO_WIDTH), LOGO_Y)
  }

  /** Where `_draw_headlines` puts its two lines, and the y it returns. */
  datatype Headlines = Headlines(title: Coordinate, week: Coordinate, bottom: real)

  /** `_draw_headlines`: the title baseline at a quarter of the canvas height, the
      calendar-week line two of its own heights below, both centred; the returned
      y lies half a line height below the second baseline. */
  function DrawHeadlines(titleExtents: TextExtents, weekExtents: TextExtents): (h: Headlines)
    ensures h.title.x + titleExtents.width / 2.0 == WIDTH_PTS / 2.0 && h.title.y == 337.5
    ensures h.week.x + weekExtents.width / 2.0 == WIDTH_PTS / 2.0
    ensures h.week.y == 337.5 + 2.0 * weekExtents.height
    ensures h.bottom == h.week.y + weekExtents.height / 2.0 == 337.5 + 2.5 * weekExtents.height
  {
    var titleY := HEIGHT_PTS / 4.0;
    var weekY := titleY + 2.0 * weekExtents.height;
    Headlines(
      Coordinate(CenteredX(titleExtents.width), titleY),
      Coordinate(CenteredX(weekExtents.width), weekY),
      weekY + 0.5 * weekExtents.height)
  }

  /** `_draw_footer`: centred, at 93 % of the canvas height. */
  function FooterPosition(footerExtents: TextExtents): (c: Coordinate)
    ensures c.x + footerExtents.width / 2.0 == WIDTH_PTS / 2.0
    ensures c.y == 1255.5
  {
    Coordinate(CenteredX(footerExtents.width), FOOTER_Y)
  }

  /** What `SharepicGenerator.__init__` fixes: the type scale, the positions of
      the logo, headlines and footer, the card region and its box. */
  datatype SharepicLayout = SharepicLayout(
    typeScale: TypeScale, logo: Coordinate, headlines: Headlines,
    topY: real, bottomY: real, rectangles: BoxOfRectangles, footer: Coordinate)

  /** The two ways `SharepicGenerator.__init__` fails: the assertion
      `top_y < bottom_y` in `BoxOfRectangles`, or its overflow error. */
  datatype GeneratorError =
    | RegionEmpty(topY: real, bottomY: real)
    | Overflowing(error: OverflowingHBoxError)

  /** `SharepicGenerator(n_teams)` with the measured extents of the title, the
      calendar-week line and the footer. */
  function NewSharepicGenerator(
    nTeams: nat, titleExtents: TextExtents, weekExtents: TextExtents, footerExtents: TextExtents)
    : (r: Result<SharepicLayout, GeneratorError>)
    ensures var topY := DrawHeadlines(titleExtents, weekExtents).bottom;
      && (r.Failure? && r.error.RegionEmpty? <==> topY >= BOTTOM_Y)
      && (r.Failure? && r.error.Overflowing? <==>
            topY < BOTTOM_Y && StackHeight(nTeams) > BOTTOM_Y - topY)
      && (r.Failure? && r.error.Overflowing? ==>
            topY < BOTTOM_Y && Box(nTeams, topY, BOTTOM_Y) == Failure(r.error.error))
      && (r.Success? ==>
            && r.value.topY == topY && r.value.bottomY == BOTTOM_Y
            && Success(r.value.rectangles) == Box(nTeams, topY, BOTTOM_Y)
            && r.value.typeScale == NewTypeScale(32.0, 1.2)
            && r.value.logo == LogoPosition()
            && r.value.headlines == DrawHeadlines(titleExtents, weekExtents)
            && r.value.footer == FooterPosition(footerExtents))
  {
    var typeScale := NewTypeScale(32.0, 1.2);
    var headlines := DrawHeadlines(titleExtents, weekExtents);
    var topY := headlines.bottom;
    var bottomY := BOTTOM_Y;
    if !(topY < bottomY) then
      Failure(RegionEmpty(topY, bottomY))
    else
      BoxOverflow(nTeams, topY, bottomY);
      match Box(nTeams, topY, bottomY)
      case Failure(e) => Failure(Overflowing(e))
      case Success(box) =>
        Success(SharepicLayout(typeScale, LogoPosition(), headlines, topY, bottomY, box,
          FooterPosition(footerExtents)))
  }

  lemma StackHeightGrows(m: nat, n: nat)
    requires m <= n
    ensures StackHeight(m) <= StackHeight(n)
  {
    assert StackHeight(n) - StackHeight(m) == (n - m) as real * (RECT_H + H_PAD);
  }

  /** The canvas holds at most five cards: with a calendar-week line no taller than
      its font size (H4 = 46.08) up to five teams fit, and six or more always
      overflow. */
  lemma GeneratorCapacity(
    nTeams: nat, titleExtents: TextExtents, weekExtents: TextExtents, footerExtents: TextExtents)
    requires 0.0 <= weekExtents.height
    ensures nTeams <= 5 && weekExtents.height <= 46.08 ==>
      NewSharepicGenerator(nTeams, titleExtents, weekExtents, footerExtents).Success?
    ensures nTeams >= 6 ==>
      NewSharepicGenerator(nTeams, titleExtents, weekExtents, footerExtents).Failure?
  {
    ConstantValues();
    if nTeams <= 5 {
      StackHeightGrows(nTeams, 5);
    } else {
      StackHeightGrows(6, nTeams);
    }
  }

  /** Where `create_svg` puts the texts of one card. */
  datatype CardLabels = CardLabels(team: Coordinate, date: Coordinate)

  /** The vertical centre of a label whose baseline is at `baseline`. */
  function TextMiddle(baseline: real, extents: TextExtents): real {
    baseline - extents.height / 2.0
  }

  /** The labels of one card: both vertically centred on the card, the team label
      at the fixed left column and the date 20 units after the team label's end. */
  predicate PlacedOn(rect: Coordinate, labels: CardLabels, teamExtents: TextExtents, dateExtents: TextExtents) {
    && labels.team.x == LABEL_X
    && TextMiddle(labels.team.y, teamExtents) == rect.y + RECT_H / 2.0
    && labels.date.x == labels.team.x + teamExtents.width + DATE_GAP
    && TextMiddle(labels.date.y, dateExtents) == rect.y + RECT_H / 2.0
  }

  /** `create_svg`: for each card, in the box's order, the team label and the date
      label positions (text_x/text_y moved between the two `show_text` calls). */
  method CreateSvg(box: BoxOfRectangles, teamExtents: TextExtents, dateExtents: TextExtents)
    returns (labels: seq<CardLabels>)
    ensures |labels| == |box.rectangles|
    ensures forall i :: 0 <= i < |labels| ==>
      PlacedOn(box.rectangles[i], labels[i], teamExtents, dateExtents)
  {
    labels := [];
    for k := 0 to |box.rectangles|
      invariant |labels| == k
      invariant forall i :: 0 <= i < k ==>
        PlacedOn(box.rectangles[i], labels[i], teamExtents, dateExtents)
    {
      var rect := box.rectangles[k];
      var textX := LABEL_X;
      var textY := rect.y + RECT_H / 2.0 + teamExtents.height / 2.0;
      var team := Coordinate(textX, textY);
      textX := textX + teamExtents.width + DATE_GAP;
      textY := textY - (teamExtents.height / 2.0 - dateExtents.height / 2.0);
      labels := labels + [CardLabels(team, Coordinate(textX, textY))];
    }
  }

  /** A label no taller than the card lies vertically inside the card: ink from
      `baseline - height` to the baseline. */
  lemma LabelsInsideCard(rect: Coordinate, labels: CardLabels, teamExtents: TextExtents, dateExtents: TextExtents)
    requires PlacedOn(rect, labels, teamExtents, dateExtents)
    requires 0.0 <= teamExtents.height <= RECT_H && 0.0 <= dateExtents.height <= RECT_H
    ensures rect.y <= labels.team.y - teamExtents.height && labels.team.y <= rect.y + RECT_H
    ensures rect.y <= labels.date.y - dateExtents.height && labels.date.y <= rect.y + RECT_H
    ensures labels.date.y == labels.team.y - teamExtents.height / 2.0 + dateExtents.height / 2.0
  {
  }
}
