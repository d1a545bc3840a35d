/** The overlay view: a store holding the latest detections and the preview
    size, and a renderer turning them into draw commands for a view of a given
    size. The coordinate formulas are those of the app, including the ones that
    differ from an aspect-preserving fit (see `ScenarioGeometry`). */
module PolygonView {
  import opened Wrappers
  import opened JavaNum
  import opened Detections

  /** A 32-bit ARGB colour, as the bit pattern of the Java `int` literal. */
  type Color = c: nat | c < 0x1_0000_0000

  const NegativeText: Color := 0xFFFF_0000
  const NegativeFill: Color := 0x80FF_0000
  const PositiveText: Color := 0xFF00_FF00
  /** Seven hex digits in the app, so its alpha byte is 0x0F. */
  const PositiveFill: Color := 0x0FF0_0FF0

  /** The colours a detection is drawn with: `text` for its label, `fill` for
      its polygon. */
  datatype Style = Style(text: Color, fill: Color)

  /** The tags drawn in the "negative" (red) style; every other tag, known or
      not, gets the green style. */
  const NegativeTags: set<string> := {"mode_disconnected", "power_disconnected", "usb_disconnected"}

  /** The style switch on a detection's tag. */
  function StyleOf(tag: string): (st: Style)
    ensures st.text == NegativeText <==> tag in NegativeTags
    ensures st.fill == NegativeFill <==> tag in NegativeTags
    ensures tag !in NegativeTags ==> st == Style(PositiveText, PositiveFill)
  {
    match tag
    case "mode_connected" => Style(PositiveText, PositiveFill)
    case "mode_disconnected" => Style(NegativeText, NegativeFill)
    case "power_connected" => Style(PositiveText, PositiveFill)
    case "power_disconnected" => Style(NegativeText, NegativeFill)
    case "speaker" => Style(PositiveText, PositiveFill)
    case "usb_connected" => Style(PositiveText, PositiveFill)
    case "usb_disconnected" => Style(NegativeText, NegativeFill)
    case _ => Style(PositiveText, PositiveFill)
  }

  /** What makes a redraw throw: integer division by a zero preview height, or
      the style switch on a detection without a tag (the first such detection
      is named). */
  datatype RenderError = DivideByZero | MissingTag(index: nat)

  /** The scale factors and vertical padding computed once per redraw.
      `factorY` is the integer quotient of the two heights. */
  datatype Geometry = Geometry(factorX: Double, factorY: int, padY: Double)

  /** Scale factors and padding for a preview of `previewW` x `previewH` drawn
      into a view of `viewW` x `viewH`, following the app's steps: the new width
      `previewW * factorX`, the ratio `previewW / previewH`, the new height, the
      padding. A zero preview width is not an error in Java (the doubles become
      infinite or NaN); a zero preview height is. */
  function ComputeGeometry(previewW: int, previewH: int, viewW: nat, viewH: nat): (r: Result<Geometry, RenderError>)
    ensures r.Failure? <==> previewH == 0
    ensures r.Failure? ==> r.error == DivideByZero
    ensures r.Success? ==> 0 <= r.value.factorY * previewH <= viewH < r.value.factorY * previewH + Abs(previewH)
    ensures r.Success? ==> (r.value.factorX.Finite? <==> previewW != 0) && (r.value.padY.Finite? <==> previewW != 0)
    ensures r.Success? && previewW != 0 ==> r.value.factorX.v * previewW as real == viewW as real
    ensures r.Success? && previewW != 0 ==>
      2.0 * r.value.padY.v * previewW as real == (viewH * previewW - viewW * previewH) as real
  {
    if previewH == 0 then Failure(DivideByZero)
    else
      var pw := previewW as real;
      var ph := previewH as real;
      var factorX := Divide(Finite(viewW as real), pw);
      var imgRatio := pw / ph;
      var newWidth := Times(Finite(pw), factorX);
      var newHeight := Divide(newWidth, imgRatio);
      var factorY := IntDiv(viewH, previewH);
      var padY := Divide(Minus(Finite(viewH as real), newHeight), 2.0);
      assert previewW != 0 ==> newWidth == Finite(viewW as real);
      assert previewW != 0 ==> newHeight.v * imgRatio == viewW as real;
      assert previewW != 0 ==> newHeight.v * pw == (viewW * previewH) as real;
      Success(Geometry(factorX, factorY, padY))
  }

  /** A polygon vertex in view coordinates. */
  datatype Vertex = Vertex(x: Double, y: Double)

  /** One drawing call on the canvas. */
  datatype DrawCmd =
    | DrawBitmap(image: Bitmap)                                   // the background, stretched over the view
    | FillPath(vertices: seq<Vertex>, fill: Color)                // a closed path through the vertices
    | Label(tag: string, percent: real, x: Double, y: Double, text: Color)  // "tag percent%" at (x, y)

  /** A decoded image: only its size matters to this model. */
  datatype Bitmap = Bitmap(width: int, height: int)

  /** A polygon point moved into view space: x is scaled and shifted by the
      padding, y is scaled by the integer factor and shifted by twice the
      padding. */
  function MapPoint(p: Point, g: Geometry): (w: Vertex)
    ensures g.factorX.Finite? && g.padY.Finite? ==>
      w == Vertex(Finite(p.x * g.factorX.v + g.padY.v), Finite(p.y * g.factorY as real + 2.0 * g.padY.v))
    ensures g.padY.NonFinite? ==> w.x.NonFinite? && w.y.NonFinite?
  {
    var y := Plus(Plus(Finite(p.y * g.factorY as real), g.padY), g.padY);
    assert g.padY.Finite? ==> y.v == p.y * g.factorY as real + 2.0 * g.padY.v;
    assert g.factorX.Finite? ==> Times(Finite(p.x), g.factorX) == Finite(p.x * g.factorX.v);
    Vertex(Plus(Times(Finite(p.x), g.factorX), g.padY), y)
  }

  function MapPolygon(ps: seq<Point>, g: Geometry): (ws: seq<Vertex>)
  {
    seq(|ps|, k requires 0 <= k < |ps| => MapPoint(ps[k], g))
  }

  /** A detection contributes a path when its polygon is present and non-empty
      (a single point is enough). */
  predicate HasPath(d: Detection)
  {
    d.polygon.Some? && |d.polygon.value| > 0
  }

  /** A detection contributes a label when its box has exactly five entries. */
  predicate HasLabel(d: Detection)
  {
    d.box.Some? && |d.box.value| == 5
  }

  function Contribution(d: Detection): nat
  {
    (if HasPath(d) then 1 else 0) + (if HasLabel(d) then 1 else 0)
  }

  /** How many draw commands a tagged list of detections produces. */
  function CommandCount(ds: seq<Detection>): nat
  {
    if |ds| == 0 then 0 else CommandCount(ds[..|ds| - 1]) + Contribution(ds[|ds| - 1])
  }

  /** The commands drawn for one tagged detection: its closed path first, then
      its label. The label sits 10 pixels above the box's scaled top-left
      corner, which gets no padding; the box's right and bottom are computed
      but never drawn. */
  function Commands(d: Detection, g: Geometry): (cs: seq<DrawCmd>)
    requires d.tag.Named?
    ensures |cs| == Contribution(d)
    ensures HasPath(d) ==>
      && cs[0].FillPath?
      && cs[0].fill == StyleOf(d.tag.name).fill
      && |cs[0].vertices| == |d.polygon.value|
      && forall k :: 0 <= k < |d.polygon.value| ==> cs[0].vertices[k] == MapPoint(d.polygon.value[k], g)
    ensures HasLabel(d) ==>
      && cs[|cs| - 1].Label?
      && cs[|cs| - 1].tag == d.tag.name
      && cs[|cs| - 1].text == StyleOf(d.tag.name).text
      && cs[|cs| - 1].percent == d.box.value[4] * 100.0
      && cs[|cs| - 1].x == Times(Finite(d.box.value[0]), g.factorX)
      && cs[|cs| - 1].y == Finite(d.box.value[1] * g.factorY as real - 10.0)
  {
    var style := StyleOf(d.tag.name);
    var path := if HasPath(d) then [FillPath(MapPolygon(d.polygon.value, g), style.fill)] else [];
    var caption :=
      if HasLabel(d) then
        var b := d.box.value;
        var left := Times(Finite(b[0]), g.factorX);
        var top := Finite(b[1] * g.factorY as real);
        [Label(d.tag.name, b[4] * 100.0, left, Minus(top, Finite(10.0)), style.text)]
      else [];
    assert HasLabel(d) ==> (path + caption)[|path + caption| - 1] == caption[0];
    assert HasLabel(d) ==> caption[0].y == Finite(d.box.value[1] * g.factorY as real - 10.0);
    path + caption
  }

  /** The detection loop of a redraw, in list order. It stops at the first
      detection without a tag, where the style switch throws. */
  function RenderAll(ds: seq<Detection>, g: Geometry): (r: Result<seq<DrawCmd>, RenderError>)
    ensures r.Failure? <==> exists i :: 0 <= i < |ds| && !ds[i].tag.Named?
    ensures r.Failure? ==>
      && r.error.MissingTag?
      && r.error.index < |ds|
      && !ds[r.error.index].tag.Named?
      && forall j :: 0 <= j < r.error.index ==> ds[j].tag.Named?
    ensures r.Success? ==> |r.value| == CommandCount(ds)
  {
    if |ds| == 0 then Success([])
    else
      var init := ds[..|ds| - 1];
      var last := ds[|ds| - 1];
      assert forall i :: 0 <= i < |init| ==> init[i] == ds[i];
      match RenderAll(init, g)
      case Failure(e) => Failure(e)
      case Success(cs) =>
        if last.tag.Named? then Success(cs + Commands(last, g))
        else Failure(MissingTag(|ds| - 1))
  }

  /** The result of rendering one list after another: the first failure wins,
      and a failure in the second list is reported at `offset` plus its index. */
  function Then(first: Result<seq<DrawCmd>, RenderError>, second: Result<seq<DrawCmd>, RenderError>, offset: nat)
    : Result<seq<DrawCmd>, RenderError>
  {
    match first
    case Failure(e) => Failure(e)
    case Success(cs) =>
      match second
      case Failure(e) => Failure(if e.MissingTag? then MissingTag(offset + e.index) else e)
      case Success(ds) => Success(cs + ds)
  }

  /** Rendering a concatenation renders the first part, then the second: the
      commands follow the detections' order, and a missing tag in the second
      part is reported at its position in the whole list. */
  lemma {:induction false} RenderAllConcat(a: seq<Detection>, b: seq<Detection>, g: Geometry)
    ensures RenderAll(a + b, g) == Then(RenderAll(a, g), RenderAll(b, g), |a|)
    decreases |b|
  {
    var ra := RenderAll(a, g);
    if |b| == 0 {
      assert a + b == a;
      assert RenderAll(b, g) == Success([]);
      if ra.Success? {
        assert ra.value + [] == ra.value;
      }
    } else {
      var b' := b[..|b| - 1];
      var last := b[|b| - 1];
      assert (a + b)[..|a + b| - 1] == a + b';
      assert (a + b)[|a + b| - 1] == last;
      RenderAllConcat(a, b', g);
      var rb' := RenderAll(b', g);
      assert RenderAll(b, g) == match rb'
        case Failure(e) => Failure(e)
        case Success(cs) => if last.tag.Named? then Success(cs + Commands(last, g)) else Failure(MissingTag(|b| - 1));
      var rab' := RenderAll(a + b', g);
      assert RenderAll(a + b, g) == match rab'
        case Failure(e) => Failure(e)
        case Success(cs) => if last.tag.Named? then Success(cs + Commands(last, g)) else Failure(MissingTag(|a + b| - 1));
      if ra.Success? && rb'.Success? && last.tag.Named? {
        assert ra.value + rb'.value + Commands(last, g) == ra.value + (rb'.value + Commands(last, g));
      }
    }
  }

  /** A one-element list renders exactly that detection's commands. */
  lemma RenderAllSingle(d: Detection, g: Geometry)
    ensures RenderAll([d], g) == if d.tag.Named? then Success(Commands(d, g)) else Failure(MissingTag(0))
  {
    assert [d][..0] == [];
    if d.tag.Named? {
      assert [] + Commands(d, g) == Commands(d, g);
    }
  }

  /** The overlay drawn over the background. Nothing is drawn for a null or
      empty list; otherwise the geometry is computed once and the detections
      are drawn in order. */
  function Overlay(detections: Option<seq<Detection>>, previewW: int, previewH: int, viewW: nat, viewH: nat)
    : (r: Result<seq<DrawCmd>, RenderError>)
    ensures detections.None? || |detections.value| == 0 ==> r == Success([])
    ensures detections.Some? && |detections.value| > 0 && previewH == 0 ==> r == Failure(DivideByZero)
    ensures r.Failure? <==>
      detections.Some? && |detections.value| > 0 &&
      (previewH == 0 || exists i :: 0 <= i < |detections.value| && !detections.value[i].tag.Named?)
    ensures r.Success? && detections.Some? ==> |r.value| == CommandCount(detections.value)
    ensures detections.Some? && |detections.value| > 0 && previewH != 0 ==>
      r == RenderAll(detections.value, ComputeGeometry(previewW, previewH, viewW, viewH).value)
  {
    if detections.None? || |detections.value| == 0 then Success([])
    else
      match ComputeGeometry(previewW, previewH, viewW, viewH)
      case Failure(e) => Failure(e)
      case Success(g) => RenderAll(detections.value, g)
  }

  /** The view's state: the last detection list handed to it (possibly null),
      the preview size, the optional background image, and how many redraws
      have been requested. */
  datatype View = View(detections: Option<seq<Detection>>, previewW: int, previewH: int,
                       image: Option<Bitmap>, invalidations: nat)

  /** A freshly constructed view: an empty list, a 0 x 0 preview, no image. */
  const Fresh: View := View(Some([]), 0, 0, None, 0)

  /** Replaces the whole detection list and requests a redraw; the preview size
      and image are kept. */
  function SetDetections(v: View, detections: Option<seq<Detection>>): (r: View)
    ensures r.detections == detections
    ensures r.previewW == v.previewW && r.previewH == v.previewH && r.image == v.image
    ensures r.invalidations == v.invalidations + 1
  {
    v.(detections := detections, invalidations := v.invalidations + 1)
  }

  /** Changes only the two preview dimensions, without requesting a redraw. */
  function SetPreviewSize(v: View, width: int, height: int): (r: View)
    ensures r.previewW == width && r.previewH == height
    ensures r.detections == v.detections && r.image == v.image && r.invalidations == v.invalidations
  {
    v.(previewW := width, previewH := height)
  }

  /** Sets the background image and requests a redraw. */
  function SetImageBitmap(v: View, image: Option<Bitmap>): (r: View)
    ensures r.image == image && r.detections == v.detections
    ensures r.previewW == v.previewW && r.previewH == v.previewH
    ensures r.invalidations == v.invalidations + 1
  {
    v.(image := image, invalidations := v.invalidations + 1)
  }

  /** A redraw of the view at its current size: the background image (if any),
      then the overlay. A redraw that throws draws nothing more. */
  function OnDraw(v: View, viewW: nat, viewH: nat): (r: Result<seq<DrawCmd>, RenderError>)
    ensures v.detections.None? || |v.detections.value| == 0 ==>
      r == Success(if v.image.Some? then [DrawBitmap(v.image.value)] else [])
    ensures r.Success? && v.image.Some? ==> |r.value| > 0 && r.value[0] == DrawBitmap(v.image.value)
    ensures r.Failure? <==> Overlay(v.detections, v.previewW, v.previewH, viewW, viewH).Failure?
    ensures r.Success? ==>
      r.value == (if v.image.Some? then [DrawBitmap(v.image.value)] else [])
                 + Overlay(v.detections, v.previewW, v.previewH, viewW, viewH).value
  {
    var background := if v.image.Some? then [DrawBitmap(v.image.value)] else [];
    assert background + [] == background;
    match Overlay(v.detections, v.previewW, v.previewH, viewW, viewH)
    case Failure(e) => Failure(e)
    case Success(cs) => Success(background + cs)
  }

  /** A fresh view draws nothing; once it holds detections but no preview size
      has been set, every redraw throws. */
  lemma FreshView(ds: seq<Detection>, viewW: nat, viewH: nat)
    ensures OnDraw(Fresh, viewW, viewH) == Success([])
    ensures |ds| > 0 ==> OnDraw(SetDetections(Fresh, Some(ds)), viewW, viewH) == Failure(DivideByZero)
  {
  }

  /** After `SetDetections` a redraw depends only on the new list, the preview
      size and the image: nothing of the previous list survives. */
  lemma ReplaceIsWholesale(v1: View, v2: View, ds: Option<seq<Detection>>, viewW: nat, viewH: nat)
    requires v1.previewW == v2.previewW && v1.previewH == v2.previewH && v1.image == v2.image
    ensures OnDraw(SetDetections(v1, ds), viewW, viewH) == OnDraw(SetDetections(v2, ds), viewW, viewH)
  {
  }

  /** The app's numbers for a 640 x 480 preview shown in a 1080 x 1920 view:
      factorX is 1.6875, but factorY is 4 (the integer quotient 1920 / 480)
      rather than 1.6875, and the padding of 555 pixels lands on x and twice on
      the y of polygon points, while a box's label gets none. */
  lemma ScenarioGeometry()
    ensures ComputeGeometry(640, 480, 1080, 1920) == Success(Geometry(Finite(1.6875), 4, Finite(555.0)))
    ensures MapPoint(Point(100.0, 100.0), Geometry(Finite(1.6875), 4, Finite(555.0)))
         == Vertex(Finite(723.75), Finite(1510.0))
    ensures Commands(Detection(Named("usb_disconnected"), None, Some([100.0, 100.0, 200.0, 150.0, 0.87])),
                     Geometry(Finite(1.6875), 4, Finite(555.0)))
         == [Label("usb_disconnected", 87.0, Finite(168.75), Finite(390.0), NegativeText)]
  {
  }
}
