/** crates/bevy_lunex_utility/src/code/element.rs: `Element`, the binding of
  * an image or a text to a widget, the `ImageParams` and `TextParams` it is
  * made from, and the rough text size `text_compute_size_simple`. The three
  * share the fields that place the element in its widget; their builders
  * are the same on those fields, so they are defined once, on `Placement`. */
module UtilityElement {
  import opened Base

  /** The fields `Element`, `ImageParams` and `TextParams` share: position
    * in percent and in pixels, size in percent of the widget, local depth,
    * and an optional forced width and height. */
  datatype Placement = Placement(
    relative: Vec2, absolute: Vec2, scale: real, depth: real,
    width: Option<real>, height: Option<real>)

  /** `Element`: a placement and the boundary (image dimensions or text
    * size) it scales. */
  datatype Element = Element(place: Placement, boundary: Vec2)

  /** `bevy::sprite::Anchor`, the nine points the presets use. */
  datatype Anchor =
    | TopLeft | TopCenter | TopRight
    | CenterLeft | Center | CenterRight
    | BottomLeft | BottomCenter | BottomRight

  /** `Color` in linear RGBA. */
  datatype Color = Color(r: real, g: real, b: real, a: real)

  const White: Color := Color(1.0, 1.0, 1.0, 1.0)

  datatype ImageParams = ImageParams(place: Placement, anchor: Anchor, color: Color, flipX: bool, flipY: bool)

  /** `TextAlignment`. */
  datatype Alignment = AlignLeft | AlignCenter | AlignRight

  /** `TextStyle`: the font size is the one field the model reads. */
  datatype TextStyle = TextStyle(fontSize: real, color: Color)

  /** Bevy's default text style: 12-point white text. */
  const DefaultStyle: TextStyle := TextStyle(12.0, White)

  datatype TextParams = TextParams(place: Placement, style: TextStyle, alignment: Alignment, anchor: Anchor)

  // ---------------------------------------------------------------------
  // Defaults and presets

  /** `Element::default` (and `Element::new`): centred in the widget,
    * boundary 50 by 50, full scale, depth 0, nothing forced. */
  function DefaultElement(): (e: Element)
    ensures e.place.relative == Vec2(50.0, 50.0) && e.place.absolute == Zero2 && e.boundary == Vec2(50.0, 50.0)
    ensures e.place.scale == 100.0 && e.place.depth == 0.0 && e.place.width.None? && e.place.height.None?
  {
    Element(Placement(Vec2(50.0, 50.0), Zero2, 100.0, 0.0, None, None), Vec2(50.0, 50.0))
  }

  /** `Element::fullfill`: a 1 by 1 boundary stretched to the whole widget. */
  function Fullfill(): (e: Element)
    ensures e.boundary == Vec2(1.0, 1.0) && e.place.width == Some(100.0) && e.place.height == Some(100.0)
    ensures e.place.(width := None, height := None) == DefaultElement().place
  {
    var d := DefaultElement();
    d.(boundary := Vec2(1.0, 1.0), place := WithHeight(WithWidth(d.place, Some(100.0)), Some(100.0)))
  }

  /** The placement both parameter types default to: the widget's top-left
    * corner, full scale, nothing forced, at depth `depth`. */
  function DefaultPlacement(depth: real): (p: Placement)
    ensures p.relative == Zero2 && p.absolute == Zero2 && p.scale == 100.0 && p.depth == depth
    ensures p.width.None? && p.height.None?
  {
    Placement(Zero2, Zero2, 100.0, depth, None, None)
  }

  /** `ImageParams::default`: top-left, white, unflipped, depth 0. */
  function DefaultImageParams(): (p: ImageParams)
    ensures p.place == DefaultPlacement(0.0) && p.anchor == TopLeft && p.color == White && !p.flipX && !p.flipY
  {
    ImageParams(DefaultPlacement(0.0), TopLeft, White, false, false)
  }

  /** `TextParams::default`: centre-left anchor, left-aligned, default
    * style, depth 3 (text in front of the image). */
  function DefaultTextParams(): (p: TextParams)
    ensures p.place == DefaultPlacement(3.0) && p.anchor == CenterLeft && p.alignment == AlignLeft && p.style == DefaultStyle
  {
    TextParams(DefaultPlacement(3.0), DefaultStyle, AlignLeft, CenterLeft)
  }

  /** The point of the widget, in percent, an anchor names: left 0,
    * centre 50, right 100 across; top 0, centre 50, bottom 100 down. */
  function AnchorPoint(a: Anchor): (v: Vec2)
    ensures 0.0 <= v.x <= 100.0 && 0.0 <= v.y <= 100.0
    ensures (a == TopLeft || a == TopCenter || a == TopRight) <==> v.y == 0.0
    ensures (a == BottomLeft || a == BottomCenter || a == BottomRight) <==> v.y == 100.0
    ensures (a == TopLeft || a == CenterLeft || a == BottomLeft) <==> v.x == 0.0
    ensures (a == TopRight || a == CenterRight || a == BottomRight) <==> v.x == 100.0
  {
    match a
    case TopLeft => Vec2(0.0, 0.0)
    case TopCenter => Vec2(50.0, 0.0)
    case TopRight => Vec2(100.0, 0.0)
    case CenterLeft => Vec2(0.0, 50.0)
    case Center => Vec2(50.0, 50.0)
    case CenterRight => Vec2(100.0, 50.0)
    case BottomLeft => Vec2(0.0, 100.0)
    case BottomCenter => Vec2(50.0, 100.0)
    case BottomRight => Vec2(100.0, 100.0)
  }

  /** The text alignment a preset pairs with its anchor: its horizontal part. */
  function AnchorAlignment(a: Anchor): (al: Alignment)
    ensures al == AlignLeft <==> AnchorPoint(a).x == 0.0
    ensures al == AlignRight <==> AnchorPoint(a).x == 100.0
  {
    match a
    case TopLeft | CenterLeft | BottomLeft => AlignLeft
    case TopCenter | Center | BottomCenter => AlignCenter
    case TopRight | CenterRight | BottomRight => AlignRight
  }

  /** `ImageParams::topcenter` … `bottomright`: the default parameters with
    * the anchor at the point of the widget it names, so the image sits
    * against that edge or corner. */
  function ImagePreset(a: Anchor): (p: ImageParams)
    ensures p.anchor == a && p.place.relative == AnchorPoint(a)
    ensures p.(anchor := TopLeft, place := p.place.(relative := Zero2)) == DefaultImageParams()
  {
    var d := DefaultImageParams();
    d.(anchor := a, place := d.place.(relative := AnchorPoint(a)))
  }

  /** `TextParams::topcenter` … `bottomright`: likewise, with the text
    * aligned to the anchor's side. */
  function TextPreset(a: Anchor): (p: TextParams)
    ensures p.anchor == a && p.place.relative == AnchorPoint(a) && p.alignment == AnchorAlignment(a)
    ensures p.(anchor := CenterLeft, alignment := AlignLeft, place := p.place.(relative := Zero2)) == DefaultTextParams()
  {
    var d := DefaultTextParams();
    d.(anchor := a, alignment := AnchorAlignment(a), place := d.place.(relative := AnchorPoint(a)))
  }

  /** The top-left preset is the default. */
  lemma TopLeftIsDefault()
    ensures ImagePreset(TopLeft) == DefaultImageParams()
  {
    assert AnchorPoint(TopLeft) == Zero2;
  }

  // ---------------------------------------------------------------------
  // Builders: each sets its target and leaves every other field

  function At(p: Placement, x: real, y: real): (r: Placement)
    ensures r.relative == Vec2(x, y) && r.(relative := p.relative) == p
  {
    p.(relative := Vec2(x, y))
  }

  function AtX(p: Placement, x: real): (r: Placement)
    ensures r.relative == Vec2(x, p.relative.y) && r.(relative := p.relative) == p
  {
    p.(relative := p.relative.(x := x))
  }

  function AtY(p: Placement, y: real): (r: Placement)
    ensures r.relative == Vec2(p.relative.x, y) && r.(relative := p.relative) == p
  {
    p.(relative := p.relative.(y := y))
  }

  function AtAbs(p: Placement, x: real, y: real): (r: Placement)
    ensures r.absolute == Vec2(x, y) && r.(absolute := p.absolute) == p
  {
    p.(absolute := Vec2(x, y))
  }

  function AtXAbs(p: Placement, x: real): (r: Placement)
    ensures r.absolute == Vec2(x, p.absolute.y) && r.(absolute := p.absolute) == p
  {
    p.(absolute := p.absolute.(x := x))
  }

  function AtYAbs(p: Placement, y: real): (r: Placement)
    ensures r.absolute == Vec2(p.absolute.x, y) && r.(absolute := p.absolute) == p
  {
    p.(absolute := p.absolute.(y := y))
  }

  function WithScale(p: Placement, scale: real): (r: Placement)
    ensures r.scale == scale && r.(scale := p.scale) == p
  {
    p.(scale := scale)
  }

  function WithDepth(p: Placement, depth: real): (r: Placement)
    ensures r.depth == depth && r.(depth := p.depth) == p
  {
    p.(depth := depth)
  }

  function WithWidth(p: Placement, width: Option<real>): (r: Placement)
    ensures r.width == width && r.(width := p.width) == p
  {
    p.(width := width)
  }

  function WithHeight(p: Placement, height: Option<real>): (r: Placement)
    ensures r.height == height && r.(height := p.height) == p
  {
    p.(height := height)
  }

  /** Setting x, then y, is setting both at once, in either order; the
    * same holds for the pixel position. */
  lemma {:induction false} AtComponents(p: Placement, x: real, y: real)
    ensures AtY(AtX(p, x), y) == At(p, x, y) == AtX(AtY(p, y), x)
    ensures AtYAbs(AtXAbs(p, x), y) == AtAbs(p, x, y) == AtXAbs(AtYAbs(p, y), x)
  {
    var a := AtY(AtX(p, x), y);
    assert a.relative == Vec2(x, y);
    var b := AtYAbs(AtXAbs(p, x), y);
    assert b.absolute == Vec2(x, y);
  }

  // ---------------------------------------------------------------------
  // Bundles

  /** `ImageElementBundle::new`: the element takes the parameters'
    * placement and the image's own dimensions as its boundary. */
  function ImageElement(params: ImageParams, dimensions: Vec2): (e: Element)
    ensures e.place == params.place && e.boundary == dimensions
  {
    Element(params.place, dimensions)
  }

  /** `TextElementBundle::new`: the element takes the parameters' placement
    * and the text's estimated size at the style's font size. */
  function TextElement(params: TextParams, text: string): (e: Element)
    ensures e.place == params.place && e.boundary == TextComputeSizeSimple(text, params.style.fontSize)
  {
    Element(params.place, TextComputeSizeSimple(text, params.style.fontSize))
  }

  // ---------------------------------------------------------------------
  // Text size

  /** A "/n" (the two characters '/', 'n', not a line break) starts at `i`. */
  predicate SepAt(s: string, i: nat)
  {
    i + 1 < |s| && s[i] == '/' && s[i + 1] == 'n'
  }

  /** The first "/n" at or after `from`. */
  function FindSep(s: string, from: nat): (r: Option<nat>)
    requires from <= |s|
    ensures r.Some? ==> from <= r.value && SepAt(s, r.value) && forall j :: from <= j < r.value ==> !SepAt(s, j)
    ensures r.None? ==> forall j :: from <= j ==> !SepAt(s, j)
    decreases |s| - from
  {
    if from + 1 >= |s| then None
    else if SepAt(s, from) then Some(from)
    else FindSep(s, from + 1)
  }

  /** `str::split("/n")`: the pieces between the matches, found from the
    * left without overlap. */
  function SplitLines(s: string): (r: seq<string>)
    ensures |r| >= 1
    decreases |s|
  {
    match FindSep(s, 0)
    case None => [s]
    case Some(i) => [s[..i]] + SplitLines(s[i + 2..])
  }

  /** The lines joined with "/n" between them. */
  function JoinLines(lines: seq<string>): string
    requires |lines| >= 1
  {
    if |lines| == 1 then lines[0] else lines[0] + "/n" + JoinLines(lines[1..])
  }

  /** No line holds "/n", and joining them back with it gives the text. */
  lemma {:induction false} SplitLinesJoin(s: string)
    ensures JoinLines(SplitLines(s)) == s
    ensures forall k :: 0 <= k < |SplitLines(s)| ==> FindSep(SplitLines(s)[k], 0).None?
    decreases |s|
  {
    match FindSep(s, 0)
    case None =>
    case Some(i) =>
      var rest := SplitLines(s[i + 2..]);
      SplitLinesJoin(s[i + 2..]);
      var r := [s[..i]] + rest;
      assert r[1..] == rest;
      assert s[..i] + "/n" + s[i + 2..] == s;
      assert FindSep(s[..i], 0).None? by {
        forall j | 0 <= j
          ensures !SepAt(s[..i], j)
        {
          if SepAt(s[..i], j) {
            assert SepAt(s, j);
          }
        }
      }
      forall k | 0 <= k < |r|
        ensures FindSep(r[k], 0).None?
      {
        if k > 0 {
          assert r[k] == rest[k - 1];
        }
      }
  }

  /** The longest line's character count, 0 for no lines. */
  function LongestLine(lines: seq<string>): nat
  {
    if |lines| == 0 then 0
    else
      var m := LongestLine(lines[..|lines| - 1]);
      if |lines[|lines| - 1]| > m then |lines[|lines| - 1]| else m
  }

  /** It is the maximum: no line is longer, and some line is that long. */
  lemma {:induction false} LongestLineIsMax(lines: seq<string>)
    ensures forall i :: 0 <= i < |lines| ==> |lines[i]| <= LongestLine(lines)
    ensures |lines| > 0 ==> exists i :: 0 <= i < |lines| && |lines[i]| == LongestLine(lines)
  {
    if |lines| > 0 {
      var init := lines[..|lines| - 1];
      LongestLineIsMax(init);
      assert forall i :: 0 <= i < |init| ==> init[i] == lines[i];
      if |init| > 0 && LongestLine(lines) == LongestLine(init) {
        var k :| 0 <= k < |init| && |init[k]| == LongestLine(init);
        assert |lines[k]| == LongestLine(lines);
      }
    }
  }

  /** The share of the font size one character is wide, 0.8 * 0.5. */
  const SymbolWidthWeight: real := 0.4
  /** The share of the font size one line is high, 1.2 * 0.5. */
  const SymbolHeightWeight: real := 0.6

  /** `count` characters or lines at `weight` of the font size each. */
  function Scaled(count: nat, fontSize: real, weight: real): real
  {
    count as real * fontSize * weight
  }

  /** More characters take no less room at a non-negative size. */
  lemma ScaledMonotone(a: nat, b: nat, fontSize: real, weight: real)
    requires a <= b && fontSize >= 0.0 && weight >= 0.0
    ensures Scaled(a, fontSize, weight) <= Scaled(b, fontSize, weight)
  {
    var k := fontSize * weight;
    assert k >= 0.0;
    assert Scaled(a, fontSize, weight) == a as real * k;
    assert Scaled(b, fontSize, weight) == b as real * k;
    assert (b as real - a as real) * k >= 0.0;
  }

  /** At a non-negative size, every line fits in the width of the longest. */
  lemma LinesFitWidth(lines: seq<string>, fontSize: real)
    ensures fontSize >= 0.0 ==> forall i :: 0 <= i < |lines| ==>
              Scaled(|lines[i]|, fontSize, SymbolWidthWeight) <= Scaled(LongestLine(lines), fontSize, SymbolWidthWeight)
  {
    LongestLineIsMax(lines);
    forall i | 0 <= i < |lines| && fontSize >= 0.0
      ensures Scaled(|lines[i]|, fontSize, SymbolWidthWeight) <= Scaled(LongestLine(lines), fontSize, SymbolWidthWeight)
    {
      ScaledMonotone(|lines[i]|, LongestLine(lines), fontSize, SymbolWidthWeight);
    }
  }

  /** `text_compute_size_simple`: a character 0.4 of the font size wide and
    * a line 0.6 of it high; the width is the longest line's and the height
    * all lines'. */
  function TextComputeSizeSimple(text: string, fontSize: real): (r: Vec2)
    ensures fontSize >= 0.0 ==> forall i :: 0 <= i < |SplitLines(text)| ==>
              Scaled(|SplitLines(text)[i]|, fontSize, SymbolWidthWeight) <= r.x
    ensures r.y == Scaled(|SplitLines(text)|, fontSize, SymbolHeightWeight) && |SplitLines(text)| >= 1
  {
    var lines := SplitLines(text);
    LinesFitWidth(lines, fontSize);
    Vec2(Scaled(LongestLine(lines), fontSize, SymbolWidthWeight), Scaled(|lines|, fontSize, SymbolHeightWeight))
  }

  /** The loop of `text_compute_size_simple`: a running maximum over the
    * lines. */
  method ComputeTextSize(text: string, fontSize: real) returns (v: Vec2)
    ensures v == TextComputeSizeSimple(text, fontSize)
  {
    var list := SplitLines(text);
    var width := 0;
    var i := 0;
    while i < |list|
      invariant 0 <= i <= |list|
      invariant width == LongestLine(list[..i])
    {
      assert list[..i + 1][..i] == list[..i] && list[..i + 1][i] == list[i];
      if |list[i]| > width {
        width := |list[i]|;
      }
      i := i + 1;
    }
    assert list[..|list|] == list;
    v := Vec2(Scaled(width, fontSize, SymbolWidthWeight), Scaled(|list|, fontSize, SymbolHeightWeight));
  }

  /** Empty text is one empty line: no width, one line's height. */
  lemma EmptyTextIsOneLine(fontSize: real)
    ensures TextComputeSizeSimple("", fontSize) == Vec2(0.0, 0.6 * fontSize)
  {
    assert SplitLines("") == [""];
    assert LongestLine([""]) == 0;
  }

  /** A text without "/n" is one line as wide as its characters. */
  lemma SingleLineSize(text: string, fontSize: real)
    requires forall j :: 0 <= j ==> !SepAt(text, j)
    ensures TextComputeSizeSimple(text, fontSize) == Vec2(|text| as real * fontSize * 0.4, fontSize * 0.6)
  {
    assert SplitLines(text) == [text];
    assert LongestLine([text]) == |text|;
  }

  /** Every line fits in the computed width, some line fills it, and the
    * height is one line's for every line. */
  lemma WidthFitsEveryLine(text: string, fontSize: real)
    requires fontSize >= 0.0
    ensures var lines := SplitLines(text);
            var v := TextComputeSizeSimple(text, fontSize);
            (forall i :: 0 <= i < |lines| ==> Scaled(|lines[i]|, fontSize, SymbolWidthWeight) <= v.x) &&
            (exists i :: 0 <= i < |lines| && Scaled(|lines[i]|, fontSize, SymbolWidthWeight) == v.x) &&
            v.y == Scaled(|lines|, fontSize, SymbolHeightWeight)
  {
    var lines := SplitLines(text);
    LongestLineIsMax(lines);
    forall i | 0 <= i < |lines|
      ensures Scaled(|lines[i]|, fontSize, SymbolWidthWeight) <= Scaled(LongestLine(lines), fontSize, SymbolWidthWeight)
    {
      ScaledMonotone(|lines[i]|, LongestLine(lines), fontSize, SymbolWidthWeight);
    }
    var k :| 0 <= k < |lines| && |lines[k]| == LongestLine(lines);
    assert Scaled(|lines[k]|, fontSize, SymbolWidthWeight) == TextComputeSizeSimple(text, fontSize).x;
  }
}
