/**
 * The image layer of the note editor: pictures placed on the canvas as
 * records with a position, a drawn size and the size of the decoded
 * picture. Hit testing, the corner handles, moving, aspect-locked resizing,
 * the fit-and-centre placement of a new picture and deletion by id.
 * Coordinates are canvas pixels, modelled as `real`.
 */
module CanvasImages {
  import opened Wrappers
  import Seqs

  datatype Image = Image(
    id: string,
    dataUrl: string,
    x: real,
    y: real,
    width: real,
    height: real,
    originalWidth: real,
    originalHeight: real)

  function ImageId(img: Image): string { img.id }

  /** The closed box `[x, x + width] × [y, y + height]` contains the point. */
  predicate Hit(img: Image, px: real, py: real) {
    img.x <= px <= img.x + img.width && img.y <= py <= img.y + img.height
  }

  /** `i` is the last (topmost, drawn last) image whose box contains the point. */
  predicate Topmost(images: seq<Image>, px: real, py: real, i: int) {
    0 <= i < |images| && Hit(images[i], px, py)
    && forall j :: i < j < |images| ==> !Hit(images[j], px, py)
  }

  /** The image drawn on top among those whose box contains the point. */
  function TopImage(images: seq<Image>, px: real, py: real): Option<Image>
    decreases |images|
  {
    if images == [] then None
    else if Hit(images[|images| - 1], px, py) then Some(images[|images| - 1])
    else TopImage(images[..|images| - 1], px, py)
  }

  /** `TopImage` finds nothing exactly when no box contains the point, and
      otherwise the topmost image that does. */
  lemma {:induction false} TopImageSpec(images: seq<Image>, px: real, py: real)
    ensures TopImage(images, px, py).None? <==> forall j :: 0 <= j < |images| ==> !Hit(images[j], px, py)
    ensures TopImage(images, px, py).Some? ==>
      exists i :: Topmost(images, px, py, i) && TopImage(images, px, py).value == images[i]
    decreases |images|
  {
    if images == [] {
    } else if Hit(images[|images| - 1], px, py) {
      assert Topmost(images, px, py, |images| - 1);
    } else {
      var init := images[..|images| - 1];
      TopImageSpec(init, px, py);
      assert forall j :: 0 <= j < |init| ==> init[j] == images[j];
      if TopImage(init, px, py).Some? {
        var i :| Topmost(init, px, py, i) && TopImage(init, px, py).value == init[i];
        assert Topmost(images, px, py, i);
      }
    }
  }

  /** `getImageAtPoint`: scans from the last image down and returns the first
      hit, so the image drawn on top wins; nothing when no box contains the
      point. */
  method ImageAtPoint(images: seq<Image>, px: real, py: real) returns (r: Option<Image>)
    ensures r == TopImage(images, px, py)
  {
    var i := |images| - 1;
    assert images[..i + 1] == images;
    while i >= 0
      invariant -1 <= i < |images|
      invariant TopImage(images, px, py) == TopImage(images[..i + 1], px, py)
    {
      TopImageStep(images, i, px, py);
      if Hit(images[i], px, py) {
        return Some(images[i]);
      }
      i := i - 1;
    }
    assert images[..0] == [];
    return None;
  }

  /** One step of the downward scan. */
  lemma TopImageStep(images: seq<Image>, k: int, px: real, py: real)
    requires 0 <= k < |images|
    ensures TopImage(images[..k + 1], px, py)
      == if Hit(images[k], px, py) then Some(images[k]) else TopImage(images[..k], px, py)
  {
    assert images[..k + 1][..k] == images[..k];
  }

  // ---------------------------------------------------------------- handles

  datatype Handle = NW | NE | SW | SE

  /** The order in which the handles are tested. */
  const HandleOrder: seq<Handle> := [NW, NE, SW, SE]

  /** Half the side of the square grab area around each corner (12 px). */
  const HandleReach: real := 6.0

  function CornerX(img: Image, h: Handle): real {
    if h == NW || h == SW then img.x else img.x + img.width
  }

  function CornerY(img: Image, h: Handle): real {
    if h == NW || h == NE then img.y else img.y + img.height
  }

  /** The point lies in the 12 × 12 square centred on the corner of `h`. */
  predicate NearCorner(img: Image, h: Handle, px: real, py: real) {
    CornerX(img, h) - HandleReach <= px <= CornerX(img, h) + HandleReach
    && CornerY(img, h) - HandleReach <= py <= CornerY(img, h) + HandleReach
  }

  /** The first handle of `hs` whose grab square holds the point. */
  function FirstNear(img: Image, hs: seq<Handle>, px: real, py: real): Option<Handle> {
    if hs == [] then None
    else if NearCorner(img, hs[0], px, py) then Some(hs[0])
    else FirstNear(img, hs[1..], px, py)
  }

  /** `FirstNear` finds nothing exactly when no grab square holds the point,
      and otherwise the first handle, in the given order, that does. */
  lemma {:induction false} FirstNearSpec(img: Image, hs: seq<Handle>, px: real, py: real)
    ensures FirstNear(img, hs, px, py).None? <==> forall k :: 0 <= k < |hs| ==> !NearCorner(img, hs[k], px, py)
    ensures FirstNear(img, hs, px, py).Some? ==> exists k :: (0 <= k < |hs|
      && hs[k] == FirstNear(img, hs, px, py).value && NearCorner(img, hs[k], px, py)
      && forall j :: 0 <= j < k ==> !NearCorner(img, hs[j], px, py))
  {
    if hs != [] && !NearCorner(img, hs[0], px, py) {
      FirstNearSpec(img, hs[1..], px, py);
      assert forall k :: 0 <= k < |hs| - 1 ==> hs[1..][k] == hs[k + 1];
      if FirstNear(img, hs[1..], px, py).Some? {
        var k :| 0 <= k < |hs[1..]| && hs[1..][k] == FirstNear(img, hs[1..], px, py).value
          && NearCorner(img, hs[1..][k], px, py)
          && forall j :: 0 <= j < k ==> !NearCorner(img, hs[1..][j], px, py);
        assert forall j :: 0 <= j < k + 1 ==> !NearCorner(img, hs[j], px, py) by {
          forall j | 0 <= j < k + 1
            ensures !NearCorner(img, hs[j], px, py)
          {
            if j > 0 {
              assert hs[j] == hs[1..][j - 1];
            }
          }
        }
      }
    }
  }

  /** The handle under the point, testing nw, ne, sw, se in that order. */
  function HandleAt(img: Image, px: real, py: real): Option<Handle> {
    FirstNear(img, HandleOrder, px, py)
  }

  /** `getResizeHandle`: the first of nw, ne, sw, se whose grab square holds
      the point, or nothing. */
  method ResizeHandleAt(img: Image, px: real, py: real) returns (r: Option<Handle>)
    ensures r == HandleAt(img, px, py)
  {
    var handles := HandleOrder;
    for k := 0 to |handles|
      invariant FirstNear(img, HandleOrder, px, py) == FirstNear(img, HandleOrder[k..], px, py)
    {
      assert HandleOrder[k..][1..] == HandleOrder[k + 1..];
      var h := handles[k];
      if CornerX(img, h) - HandleReach <= px <= CornerX(img, h) + HandleReach
         && CornerY(img, h) - HandleReach <= py <= CornerY(img, h) + HandleReach
      {
        return Some(h);
      }
    }
    return None;
  }

  // ---------------------------------------------------------------- moving

  /** Applies `f` to every image with the id and keeps every other image. */
  function Replace(images: seq<Image>, id: string, f: Image -> Image): (r: seq<Image>)
    ensures |r| == |images|
    ensures forall i :: 0 <= i < |images| && images[i].id != id ==> r[i] == images[i]
    ensures forall i :: 0 <= i < |images| && images[i].id == id ==> r[i] == f(images[i])
  {
    seq(|images|, i requires 0 <= i < |images| => if images[i].id == id then f(images[i]) else images[i])
  }

  function Shift(dx: real, dy: real): Image -> Image {
    (img: Image) => img.(x := img.x + dx, y := img.y + dy)
  }

  /** The move branch of `draw`: the selected image is translated by the
      mouse delta, without clamping to the canvas. */
  function Moved(images: seq<Image>, id: string, dx: real, dy: real): (r: seq<Image>)
    ensures |r| == |images|
    ensures forall i :: 0 <= i < |images| && images[i].id != id ==> r[i] == images[i]
    ensures forall i :: 0 <= i < |images| && images[i].id == id ==>
      r[i].x == images[i].x + dx && r[i].y == images[i].y + dy
      && r[i].(x := images[i].x, y := images[i].y) == images[i]
  {
    Replace(images, id, Shift(dx, dy))
  }

  /** Moving by a delta and then back restores the layer. */
  lemma MoveBack(images: seq<Image>, id: string, dx: real, dy: real)
    ensures Moved(Moved(images, id, dx, dy), id, -dx, -dy) == images
  {
    var m := Moved(images, id, dx, dy);
    var back := Moved(m, id, -dx, -dy);
    forall i | 0 <= i < |images|
      ensures back[i] == images[i]
    {
      assert m[i].id == images[i].id;
    }
  }

  /** A drag in two steps moves the image as far as one step by the summed
      delta: each mouse event adds its own delta. */
  lemma MoveTwice(images: seq<Image>, id: string, dx1: real, dy1: real, dx2: real, dy2: real)
    ensures Moved(Moved(images, id, dx1, dy1), id, dx2, dy2) == Moved(images, id, dx1 + dx2, dy1 + dy2)
  {
    var m := Moved(images, id, dx1, dy1);
    var twice := Moved(m, id, dx2, dy2);
    var once := Moved(images, id, dx1 + dx2, dy1 + dy2);
    forall i | 0 <= i < |images|
      ensures twice[i] == once[i]
    {
      assert m[i].id == images[i].id;
    }
  }

  /** `images.find(img => img.id === id)`: the image the move and resize
      branches read. */
  function FindImage(images: seq<Image>, id: string): (r: Option<Image>)
    ensures r.None? <==> forall j :: 0 <= j < |images| ==> images[j].id != id
    ensures r.Some? ==> r.value in images && r.value.id == id
  {
    Seqs.Find(images, (img: Image) => img.id == id)
  }

  // ---------------------------------------------------------------- resizing

  datatype Box = Box(x: real, y: real, width: real, height: real)

  function BoxOf(img: Image): Box {
    Box(img.x, img.y, img.width, img.height)
  }

  /** The smallest width and height a resize leaves. */
  const MinSize: real := 50.0

  /** A decoded picture has a positive size, so its aspect ratio is defined. */
  predicate HasAspect(img: Image) {
    img.originalWidth > 0.0 && img.originalHeight > 0.0
  }

  /** The corner that stays put while `h` is dragged. */
  function OppositeX(b: Box, h: Handle): real {
    if h == NW || h == SW then b.x + b.width else b.x
  }

  function OppositeY(b: Box, h: Handle): real {
    if h == NW || h == NE then b.y + b.height else b.y
  }

  /** The width the drag asks for: the west handles grow leftwards. */
  function DraggedWidth(img: Image, h: Handle, dx: real): real {
    if h == NW || h == SW then img.width - dx else img.width + dx
  }

  /** The aspect ratio `originalWidth / originalHeight` the resize keeps. */
  function Aspect(img: Image): real
    requires HasAspect(img)
  {
    img.originalWidth / img.originalHeight
  }

  /** Neither minimum-size clamp fires: the dragged width and the height it
      implies are both at least 50 px. */
  predicate Unclamped(img: Image, h: Handle, dx: real)
    requires HasAspect(img)
  {
    DraggedWidth(img, h, dx) >= MinSize && DraggedWidth(img, h, dx) / Aspect(img) >= MinSize
  }

  lemma MulStrict(p: real, q: real, a: real)
    requires p < q && a > 0.0
    ensures p * a < q * a
  {
    assert q * a - p * a == (q - p) * a;
  }

  lemma MulMono(p: real, q: real, a: real)
    requires p <= q && a >= 0.0
    ensures p * a <= q * a
  {
    assert q * a - p * a == (q - p) * a;
  }

  /** The two minimum-size clamps, width first, on a size whose height is
      `w0 / aspect`. */
  function Clamp(w0: real, aspect: real): (r: Size)
    requires aspect > 0.0
    ensures r.width >= MinSize && r.height >= MinSize
    ensures r.height * aspect == r.width
    ensures w0 >= MinSize && w0 / aspect >= MinSize ==> r == Size(w0, w0 / aspect)
  {
    var w1 := if w0 < MinSize then MinSize else w0;
    var h1 := w1 / aspect;
    assert h1 * aspect == w1;
    if h1 < MinSize then
      MulStrict(h1, MinSize, aspect);
      Size(MinSize * aspect, MinSize)
    else
      Size(w1, h1)
  }

  /** `height · aspect == width` is the same ratio as the original size. */
  lemma RatioKept(w: real, h: real, ow: real, oh: real)
    requires ow > 0.0 && oh > 0.0 && h * (ow / oh) == w
    ensures w * oh == h * ow
  {
    var a := ow / oh;
    assert a * oh == ow;
    calc {
      w * oh;
      (h * a) * oh;
      h * (a * oh);
      h * ow;
    }
  }

  /** The resize branch of `draw`: only the horizontal mouse delta is used;
      the height follows the original aspect ratio; width and height are then
      clamped to at least 50 px, height last. The position is computed
      before the clamps, so the opposite corner stays put only when neither
      clamp fires. */
  function ResizeBox(img: Image, h: Handle, dx: real): Box
    requires HasAspect(img)
  {
    var aspect := Aspect(img);
    var w0 := DraggedWidth(img, h, dx);
    var h0 := w0 / aspect;
    var x0 := if h == NW || h == SW then img.x + (img.width - w0) else img.x;
    var y0 := if h == NW || h == NE then img.y + (img.height - h0) else img.y;
    var s := Clamp(w0, aspect);
    Box(x0, y0, s.width, s.height)
  }

  /** A resize never leaves a side below the minimum, keeps the picture's
      aspect ratio, and when no clamp applies follows the drag exactly while
      the corner opposite the handle stays put. */
  lemma ResizeBoxSpec(img: Image, h: Handle, dx: real)
    requires HasAspect(img)
    ensures var b := ResizeBox(img, h, dx);
      b.width >= MinSize && b.height >= MinSize
      && b.width * img.originalHeight == b.height * img.originalWidth
      && (Unclamped(img, h, dx) ==>
            b.width == DraggedWidth(img, h, dx)
            && OppositeX(b, h) == OppositeX(BoxOf(img), h)
            && OppositeY(b, h) == OppositeY(BoxOf(img), h))
  {
    var s := Clamp(DraggedWidth(img, h, dx), Aspect(img));
    RatioKept(s.width, s.height, img.originalWidth, img.originalHeight);
  }

  /** Places the resized box on every image with the id; the picture and its
      original size are kept. */
  function Resized(images: seq<Image>, id: string, b: Box): (r: seq<Image>)
    ensures |r| == |images|
    ensures forall i :: 0 <= i < |images| && images[i].id != id ==> r[i] == images[i]
    ensures forall i :: 0 <= i < |images| && images[i].id == id ==>
      BoxOf(r[i]) == b && r[i].id == id && r[i].dataUrl == images[i].dataUrl
      && r[i].originalWidth == images[i].originalWidth
      && r[i].originalHeight == images[i].originalHeight
  {
    Replace(images, id, (img: Image) => img.(x := b.x, y := b.y, width := b.width, height := b.height))
  }

  /** Moving or resizing a picture keeps every picture's natural size. */
  lemma MovedKeepsAspect(images: seq<Image>, id: string, dx: real, dy: real)
    requires forall i :: 0 <= i < |images| ==> HasAspect(images[i])
    ensures forall i :: 0 <= i < |images| ==> HasAspect(Moved(images, id, dx, dy)[i])
  {
    var r := Moved(images, id, dx, dy);
    forall i | 0 <= i < |images| ensures HasAspect(r[i]) {
      assert HasAspect(images[i]);
      if images[i].id == id {
        assert r[i].(x := images[i].x, y := images[i].y) == images[i];
        assert r[i].originalWidth == images[i].originalWidth;
      }
    }
  }

  lemma ResizedKeepsAspect(images: seq<Image>, id: string, b: Box)
    requires forall i :: 0 <= i < |images| ==> HasAspect(images[i])
    ensures forall i :: 0 <= i < |images| ==> HasAspect(Resized(images, id, b)[i])
  {
    var r := Resized(images, id, b);
    forall i | 0 <= i < |images| ensures HasAspect(r[i]) {
      assert HasAspect(images[i]);
    }
  }

  // ---------------------------------------------------------------- inserting

  datatype Size = Size(width: real, height: real)

  /** The share of the canvas a new picture may take in each direction. */
  const FitShare: real := 0.6

  /** `handleImageInsert`'s fitting: a picture wider than 60% of the canvas
      is scaled down to that width, then one still taller than 60% of the
      canvas is scaled down to that height; the aspect ratio is kept. */
  function FitSize(w: real, h: real, canvasW: real, canvasH: real): (r: Size)
    requires w >= 0.0 && h >= 0.0 && canvasW >= 0.0 && canvasH >= 0.0
    ensures r.width <= canvasW * FitShare && r.height <= canvasH * FitShare
    ensures r.width >= 0.0 && r.height >= 0.0
    ensures r.width * h == r.height * w
    ensures w <= canvasW * FitShare && h <= canvasH * FitShare ==> r == Size(w, h)
  {
    var maxW := canvasW * FitShare;
    var maxH := canvasH * FitShare;
    var s := ScaleTo(w, h, maxW);
    if s.height > maxH then
      var t := ScaleTo(s.height, s.width, maxH);
      CrossRatio(s.width, s.height, t.height, maxH, w, h);
      Size(t.height, maxH)
    else
      s
  }

  /** One fitting step: a first side longer than `max` becomes `max` and the
      second side is scaled by the same factor. */
  function ScaleTo(first: real, second: real, max: real): (r: Size)
    requires first >= 0.0 && second >= 0.0 && max >= 0.0
    ensures r.width <= max
    ensures r.width <= first && r.height <= second
    ensures r.width >= 0.0 && r.height >= 0.0
    ensures r.width * second == r.height * first
    ensures first <= max ==> r == Size(first, second)
  {
    if first > max then
      var scaled := (second * max) / first;
      assert scaled * first == second * max;
      MulMono(max, first, second);
      assert scaled <= second by {
        if scaled > second {
          MulStrict(second, scaled, first);
        }
      }
      Size(max, scaled)
    else
      Size(first, second)
  }

  lemma CrossRatio(w1: real, h1: real, w2: real, maxH: real, w: real, h: real)
    requires h1 > 0.0 && w2 * h1 == maxH * w1 && w1 * h == h1 * w
    ensures w2 * h == maxH * w
  {
    calc {
      (w2 * h) * h1;
      (w2 * h1) * h;
      maxH * (w1 * h);
      maxH * (h1 * w);
      (maxH * w) * h1;
    }
    if w2 * h < maxH * w {
      MulStrict(w2 * h, maxH * w, h1);
    } else if w2 * h > maxH * w {
      MulStrict(maxH * w, w2 * h, h1);
    }
  }

  /** The placed picture: fitted, centred on the canvas, keeping the decoded
      size as its original size. */
  function Placed(id: string, dataUrl: string, w: real, h: real, canvasW: real, canvasH: real): (img: Image)
    requires w >= 0.0 && h >= 0.0 && canvasW >= 0.0 && canvasH >= 0.0
    ensures img.x + img.width / 2.0 == canvasW / 2.0 && img.y + img.height / 2.0 == canvasH / 2.0
    ensures Size(img.width, img.height) == FitSize(w, h, canvasW, canvasH)
    ensures img.id == id && img.dataUrl == dataUrl
    ensures img.originalWidth == w && img.originalHeight == h
  {
    var s := FitSize(w, h, canvasW, canvasH);
    Image(id, dataUrl, (canvasW - s.width) / 2.0, (canvasH - s.height) / 2.0, s.width, s.height, w, h)
  }

  /** The delete key: every image with the selected id goes, the others stay
      in order. */
  function Deleted(images: seq<Image>, id: string): (r: seq<Image>)
    ensures forall j :: 0 <= j < |r| ==> r[j].id != id && r[j] in images
    ensures forall j :: 0 <= j < |images| && images[j].id != id ==> images[j] in r
  {
    Seqs.RemoveKey(images, ImageId, id)
  }
}
