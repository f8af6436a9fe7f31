/**
 * The box-model arithmetic of the hover highlight: from an element's bounding
 * rectangle and its computed margins and paddings, the three rectangles of the
 * overlay in whole pixels. Browser values are reals; `Round` is `Math.round`, so `px(v)` is the CSS length `Px(Round(v))`.
 */
module Geometry {
  import opened Dom

  /** Math.round: the nearest integer, halves rounded up. */
  function Round(v: real): (r: int)
    ensures v - 0.5 < r as real <= v + 0.5
  {
    (v + 0.5).Floor
  }

  predicate IsInt(v: real)
  {
    v == v.Floor as real
  }

  /** getBoundingClientRect(): top, left, width, height. */
  datatype Rect = Rect(top: real, left: real, width: real, height: real)

  /** Four computed side values (margins or paddings) in CSS order. */
  datatype Sides = Sides(top: real, right: real, bottom: real, left: real)

  /** A box in whole pixels, as written into style.top/left/width/height. */
  datatype PxBox = PxBox(top: int, left: int, width: int, height: int)

  /**
   * The outer overlay box in viewport coordinates, and the padding and content layers
   * in the outer box's coordinates. The margin layer always fills the outer box
   * (0px, 0px, 100%, 100%); it is `MarginLayerStyle` below, not a computed box.
   */
  datatype Layers = Layers(outer: PxBox, padding: PxBox, content: PxBox)

  /**
   * The padding layer always has the element's own size, offset by the margins; with
   * no margins and no paddings the outer box is the element's rectangle and the
   * padding and content layers both fill it.
   */
  function BoxModel(rect: Rect, mar: Sides, pad: Sides): (r: Layers)
    ensures r.padding.width == Round(rect.width) && r.padding.height == Round(rect.height)
    ensures mar == Sides(0.0, 0.0, 0.0, 0.0) && pad == Sides(0.0, 0.0, 0.0, 0.0) ==>
              r.outer == PxBox(Round(rect.top), Round(rect.left), Round(rect.width), Round(rect.height))
              && r.padding == PxBox(0, 0, Round(rect.width), Round(rect.height)) && r.content == r.padding
  {
    RoundOfInt(0);
    Layers(
      PxBox(Round(rect.top - mar.top), Round(rect.left - mar.left),
            Round(rect.width + mar.left + mar.right), Round(rect.height + mar.top + mar.bottom)),
      PxBox(Round(mar.top), Round(mar.left), Round(rect.width), Round(rect.height)),
      PxBox(Round(mar.top + pad.top), Round(mar.left + pad.left),
            Round(rect.width - pad.left - pad.right), Round(rect.height - pad.top - pad.bottom)))
  }

  // ----- rounding -----

  /** Round gives the one integer in (v - 1/2, v + 1/2]. */
  lemma RoundUnique(v: real, k: int)
    requires v - 0.5 < k as real <= v + 0.5
    ensures Round(v) == k
  {
    var r := Round(v);
    assert (r - k) as real < 1.0 && (k - r) as real < 1.0;
  }

  lemma RoundOfInt(k: int)
    ensures Round(k as real) == k
  {
    RoundUnique(k as real, k);
  }

  /** Rounding commutes with a whole-pixel shift. */
  lemma RoundShift(v: real, k: int)
    ensures Round(v + k as real) == Round(v) + k
  {
    RoundUnique(v + k as real, Round(v) + k);
  }

  lemma RoundMonotone(a: real, b: real)
    requires a <= b
    ensures Round(a) <= Round(b)
  {
  }

  // ----- properties of the layers -----

  /** With whole-pixel inputs nothing is rounded: the layers are the exact formulas. */
  lemma BoxModelExact(rect: Rect, mar: Sides, pad: Sides)
    requires IsInt(rect.top) && IsInt(rect.left) && IsInt(rect.width) && IsInt(rect.height)
    requires IsInt(mar.top) && IsInt(mar.right) && IsInt(mar.bottom) && IsInt(mar.left)
    requires IsInt(pad.top) && IsInt(pad.right) && IsInt(pad.bottom) && IsInt(pad.left)
    ensures var t, l, w, h := rect.top.Floor, rect.left.Floor, rect.width.Floor, rect.height.Floor;
            var mt, mr, mb, ml := mar.top.Floor, mar.right.Floor, mar.bottom.Floor, mar.left.Floor;
            var pt, pr, pb, pl := pad.top.Floor, pad.right.Floor, pad.bottom.Floor, pad.left.Floor;
            BoxModel(rect, mar, pad) == Layers(
              PxBox(t - mt, l - ml, w + ml + mr, h + mt + mb),
              PxBox(mt, ml, w, h),
              PxBox(mt + pt, ml + pl, w - pl - pr, h - pt - pb))
  {
    var t, l, w, h := rect.top.Floor, rect.left.Floor, rect.width.Floor, rect.height.Floor;
    var mt, mr, mb, ml := mar.top.Floor, mar.right.Floor, mar.bottom.Floor, mar.left.Floor;
    var pt, pr, pb, pl := pad.top.Floor, pad.right.Floor, pad.bottom.Floor, pad.left.Floor;
    RoundOfInt(t - mt); RoundOfInt(l - ml); RoundOfInt(w + ml + mr); RoundOfInt(h + mt + mb);
    RoundOfInt(mt); RoundOfInt(ml); RoundOfInt(w); RoundOfInt(h);
    RoundOfInt(mt + pt); RoundOfInt(ml + pl); RoundOfInt(w - pl - pr); RoundOfInt(h - pt - pb);
  }

  /**
   * A 200x80 element at (100, 50) with margins 10/5/10/5 and paddings of 4 gets an
   * outer box of (90, 45, 210, 100) and a content layer of (14, 9, 192, 72).
   */
  lemma BoxModelExample()
    ensures var b := BoxModel(Rect(100.0, 50.0, 200.0, 80.0), Sides(10.0, 5.0, 10.0, 5.0), Sides(4.0, 4.0, 4.0, 4.0));
            b.outer == PxBox(90, 45, 210, 100) && b.padding == PxBox(10, 5, 200, 80) && b.content == PxBox(14, 9, 192, 72)
  {
    BoxModelExact(Rect(100.0, 50.0, 200.0, 80.0), Sides(10.0, 5.0, 10.0, 5.0), Sides(4.0, 4.0, 4.0, 4.0));
  }

  /**
   * Moving the element by whole pixels moves only the outer box; the layers inside
   * it are relative to it and stay as they were.
   */
  lemma BoxModelTranslate(rect: Rect, mar: Sides, pad: Sides, dy: int, dx: int)
    ensures var b := BoxModel(rect, mar, pad);
            var b' := BoxModel(rect.(top := rect.top + dy as real, left := rect.left + dx as real), mar, pad);
            b'.outer == b.outer.(top := b.outer.top + dy, left := b.outer.left + dx)
            && b'.padding == b.padding && b'.content == b.content
  {
    RoundShift(rect.top - mar.top, dy);
    RoundShift(rect.left - mar.left, dx);
    assert rect.top + dy as real - mar.top == rect.top - mar.top + dy as real;
    assert rect.left + dx as real - mar.left == rect.left - mar.left + dx as real;
  }

  /**
   * The padding layer lands where the element is and the content layer where its
   * content starts, each to within one pixel after the two roundings.
   */
  lemma BoxModelPlacement(rect: Rect, mar: Sides, pad: Sides)
    ensures var b := BoxModel(rect, mar, pad);
            var y, x := (b.outer.top + b.padding.top) as real, (b.outer.left + b.padding.left) as real;
            var cy, cx := (b.outer.top + b.content.top) as real, (b.outer.left + b.content.left) as real;
            rect.top - 1.0 < y <= rect.top + 1.0 && rect.left - 1.0 < x <= rect.left + 1.0
            && rect.top + pad.top - 1.0 < cy <= rect.top + pad.top + 1.0
            && rect.left + pad.left - 1.0 < cx <= rect.left + pad.left + 1.0
  {
  }

  /**
   * With whole-pixel inputs and non-negative margins and paddings, the content layer
   * lies inside the padding layer, which lies inside the outer box.
   */
  lemma BoxModelNested(rect: Rect, mar: Sides, pad: Sides)
    requires IsInt(rect.top) && IsInt(rect.left) && IsInt(rect.width) && IsInt(rect.height)
    requires IsInt(mar.top) && IsInt(mar.right) && IsInt(mar.bottom) && IsInt(mar.left)
    requires IsInt(pad.top) && IsInt(pad.right) && IsInt(pad.bottom) && IsInt(pad.left)
    requires mar.top >= 0.0 && mar.right >= 0.0 && mar.bottom >= 0.0 && mar.left >= 0.0
    requires pad.top >= 0.0 && pad.right >= 0.0 && pad.bottom >= 0.0 && pad.left >= 0.0
    ensures var b := BoxModel(rect, mar, pad);
            Inside(b.content, b.padding) && Inside(b.padding, PxBox(0, 0, b.outer.width, b.outer.height))
  {
    BoxModelExact(rect, mar, pad);
  }

  /** For any inputs, a non-negative padding never puts the content layer above or left of the padding layer. */
  lemma BoxModelContentCorner(rect: Rect, mar: Sides, pad: Sides)
    requires pad.top >= 0.0 && pad.left >= 0.0
    ensures var b := BoxModel(rect, mar, pad);
            b.padding.top <= b.content.top && b.padding.left <= b.content.left
  {
    RoundMonotone(mar.top, mar.top + pad.top);
    RoundMonotone(mar.left, mar.left + pad.left);
  }

  /** Box a lies within box b (same coordinates). */
  predicate Inside(a: PxBox, b: PxBox)
  {
    b.top <= a.top && b.left <= a.left
    && a.top + a.height <= b.top + b.height && a.left + a.width <= b.left + b.width
  }

  // ----- the inline styles the highlight writes -----

  /** The outer overlay: shown, placed at the box, overflow visible. */
  function OuterStyle(b: PxBox): (s: map<string, CssValue>)
    ensures s.Keys == {"display", "overflow", "top", "left", "width", "height"}
    ensures s["display"] == Keyword("block") && s["overflow"] == Keyword("visible")
    ensures s["top"] == Px(b.top) && s["left"] == Px(b.left) && s["width"] == Px(b.width) && s["height"] == Px(b.height)
  {
    BoxStyle(b)["display" := Keyword("block")]["overflow" := Keyword("visible")]
  }

  /** A layer's placement: exactly top, left, width and height, each the box's value in px. */
  function BoxStyle(b: PxBox): (s: map<string, CssValue>)
    ensures s.Keys == {"top", "left", "width", "height"}
    ensures s["top"] == Px(b.top) && s["left"] == Px(b.left) && s["width"] == Px(b.width) && s["height"] == Px(b.height)
  {
    map["top" := Px(b.top), "left" := Px(b.left), "width" := Px(b.width), "height" := Px(b.height)]
  }

  /** The margin layer: always 0px, 0px, 100%, 100% of the outer box. */
  const MarginLayerStyle: map<string, CssValue> :=
    map["top" := Px(0), "left" := Px(0), "width" := Percent(100), "height" := Percent(100)]
}
