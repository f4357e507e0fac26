/**
 * The note-canvas editor: the bounded undo history of canvas snapshots,
 * the mouse gestures that pick, move and resize pictures or draw strokes
 * and shapes, the keyboard shortcuts, clearing and inserting pictures.
 * A snapshot (`canvas.toDataURL()`) is an opaque string passed in by the
 * caller; mouse and key events arrive as their coordinates and keys.
 */
module NoteEditor {
  import opened Wrappers
  import Text
  import opened CanvasImages

  datatype Tool = Pen | TextTool | Eraser | Highlighter | ShapeTool | Lasso | ImageTool

  datatype ShapeKind = Circle | Rectangle | Line | Arrow

  datatype Point = Point(x: real, y: real)

  datatype Composite = SourceOver | Multiply | DestinationOut

  /** One freehand segment and the context settings it is stroked with; the
      eraser leaves the stroke colour as it was (`None`). */
  datatype Stroke = Stroke(from: Point, to: Point, color: Option<string>,
                           width: real, alpha: real, composite: Composite)

  /** A shape drawn onto the canvas when the mouse is released. */
  datatype ShapeDraw = ShapeDraw(kind: ShapeKind, start: Point, end: Point)

  datatype KeyCommand = UndoKey | RedoKey | DeleteKey | OtherKey

  /** The tools that draw freehand strokes. */
  predicate IsPenTool(t: Tool) {
    t == Pen || t == Eraser || t == Highlighter
  }

  /** The tools whose mouse-down first tests the pictures. */
  predicate PicksImages(t: Tool) {
    t == ImageTool || t == Lasso
  }

  /** A truthy selected id. */
  predicate Selected(sel: Option<string>) {
    sel.Some? && sel.value != ""
  }

  /** The stroke settings of the freehand tools: the pen draws at the pen
      width, the highlighter three times as wide at 40% opacity, multiplied
      onto the page, and the eraser four times as wide, erasing. */
  function PenStroke(tool: Tool, color: string, width: real, from: Point, to: Point): (s: Stroke)
    requires IsPenTool(tool)
    ensures s.from == from && s.to == to
    ensures s.composite == DestinationOut <==> tool == Eraser
    ensures s.color == Some(color) <==> tool != Eraser
    ensures s.alpha == 1.0 <==> tool != Highlighter
    ensures width > 0.0 ==> (s.width == width <==> tool == Pen)
    ensures tool == Highlighter ==> s.width == 3.0 * width
    ensures tool == Eraser ==> s.width == 4.0 * width
  {
    match tool
    case Pen => Stroke(from, to, Some(color), width, 1.0, SourceOver)
    case Highlighter => Stroke(from, to, Some(color), width * 3.0, 0.4, Multiply)
    case Eraser => Stroke(from, to, None, width * 4.0, 1.0, DestinationOut)
  }

  /** The keyboard shortcuts: Ctrl/Cmd+Z undoes, Ctrl/Cmd+Y and
      Ctrl/Cmd+Shift+Z redo, Delete and Backspace delete the selection. */
  function KeyCommandOf(key: string, ctrl: bool, meta: bool, shift: bool): (c: KeyCommand)
    ensures c == UndoKey <==> (ctrl || meta) && key == "z" && !shift
    ensures c == RedoKey <==> (ctrl || meta) && (key == "y" || (key == "z" && shift))
    ensures c == DeleteKey <==> key == "Delete" || key == "Backspace"
  {
    if (ctrl || meta) && key == "z" && !shift then UndoKey
    else if (ctrl || meta) && (key == "y" || (key == "z" && shift)) then RedoKey
    else if key == "Delete" || key == "Backspace" then DeleteKey
    else OtherKey
  }

  // ---------------------------------------------------------------- history

  /** The most snapshots the history keeps. */
  const HistoryLimit := 50

  /** `saveToHistory` on the list and cursor: everything after the cursor
      (the redo branch) is dropped, the snapshot is appended, and when the
      list then exceeds 50 entries its oldest entry is dropped. The cursor
      ends on the new snapshot. */
  function Pushed(snapshots: seq<string>, index: int, snap: string): (seq<string>, int)
    requires -1 <= index < |snapshots|
  {
    var kept := snapshots[..index + 1] + [snap];
    if |kept| > HistoryLimit then (kept[1..], index) else (kept, index + 1)
  }

  /** After a commit the list keeps the snapshots up to the cursor (losing
      the oldest when it would exceed 50 entries), then the new snapshot, and
      the cursor is on the new snapshot. */
  lemma PushedShape(snapshots: seq<string>, index: int, snap: string)
    requires -1 <= index < |snapshots|
    ensures var r := Pushed(snapshots, index, snap);
      |r.0| == (if index + 2 > HistoryLimit then index + 1 else index + 2)
      && r.1 == |r.0| - 1 && r.0[r.1] == snap
      && r.0[..r.1] == snapshots[index + 2 - |r.0|..index + 1]
  {
    var kept := snapshots[..index + 1] + [snap];
    if |kept| > HistoryLimit {
      assert kept[1..][..index] == snapshots[1..index + 1];
    } else {
      assert kept[..index + 1] == snapshots[..index + 1];
    }
  }

  /** The snapshot under the cursor, or `""` (falsy) when the cursor is off
      the list. */
  function CurrentSnapshot(snapshots: seq<string>, index: int): string {
    if 0 <= index < |snapshots| then snapshots[index] else ""
  }

  /** A commit never grows a history of at most 50 entries past 50, and it
      leaves nothing to redo. */
  lemma PushedBounded(snapshots: seq<string>, index: int, snap: string)
    requires -1 <= index < |snapshots| <= HistoryLimit
    ensures |Pushed(snapshots, index, snap).0| <= HistoryLimit
    ensures Pushed(snapshots, index, snap).1 == |Pushed(snapshots, index, snap).0| - 1
  {
    PushedShape(snapshots, index, snap);
  }

  /** Undo right after a commit returns to the snapshot the commit was made
      from, also when the oldest entry was dropped. */
  lemma PushThenUndo(snapshots: seq<string>, index: int, snap: string)
    requires 0 <= index < |snapshots| <= HistoryLimit
    ensures Pushed(snapshots, index, snap).1 > 0
    ensures Pushed(snapshots, index, snap).0[Pushed(snapshots, index, snap).1 - 1] == snapshots[index]
  {
    PushedShape(snapshots, index, snap);
    var r := Pushed(snapshots, index, snap);
    assert r.0[..r.1][r.1 - 1] == r.0[r.1 - 1];
  }

  // ---------------------------------------------------------------- editor

  class Editor {
    var tool: Tool
    var shape: Option<ShapeKind>
    var penColor: string
    var penWidth: real
    var isDrawing: bool
    var lastPos: Point
    var shapeStart: Option<Point>
    /** `historyRef` and `historyIndexRef`. */
    var snapshots: seq<string>
    var index: int
    var images: seq<Image>
    var selected: Option<string>
    var resizing: bool
    var moving: bool
    var handle: Option<Handle>

    /** The cursor is on the list (or -1 on the empty list), the list holds
        at most 50 snapshots, and every picture has a positive decoded size. */
    predicate Valid()
      reads this
    {
      |snapshots| <= HistoryLimit && -1 <= index < |snapshots| && (snapshots != [] ==> 0 <= index)
      && forall i :: 0 <= i < |images| ==> HasAspect(images[i])
    }

    /** The editor's initial state: the pen in black at width 3, no
        pictures, an empty history with cursor -1. */
    constructor()
      ensures Valid()
      ensures tool == Pen && shape == None && penColor == "#000000" && penWidth == 3.0
      ensures !isDrawing && lastPos == Point(0.0, 0.0) && shapeStart == None
      ensures snapshots == [] && index == -1
      ensures images == [] && selected == None && !resizing && !moving && handle == None
    {
      tool, shape, penColor, penWidth := Pen, None, "#000000", 3.0;
      isDrawing, lastPos, shapeStart := false, Point(0.0, 0.0), None;
      snapshots, index := [], -1;
      images, selected, resizing, moving, handle := [], None, false, false, None;
    }

    /** Seeds the history with the freshly drawn page. */
    method InitHistory(snap: string)
      requires Valid()
      modifies this`snapshots, this`index
      ensures Valid()
      ensures snapshots == [snap] && index == 0
    {
      snapshots := [snap];
      index := 0;
    }

    /** `saveToHistory`. */
    method SaveToHistory(snap: string)
      requires Valid()
      modifies this`snapshots, this`index
      ensures Valid()
      ensures (snapshots, index) == Pushed(old(snapshots), old(index), snap)
    {
      var history := snapshots[..index + 1];
      history := history + [snap];
      if |history| > HistoryLimit {
        history := history[1..];
      } else {
        index := index + 1;
      }
      snapshots := history;
      PushedBounded(old(snapshots), old(index), snap);
    }

    /** `undo`: steps back when the cursor is past the first snapshot and
        returns the snapshot to repaint. */
    method Undo() returns (repaint: Option<string>)
      requires Valid()
      modifies this`index
      ensures Valid()
      ensures old(index) > 0 ==> index == old(index) - 1 && repaint == Some(snapshots[index])
      ensures old(index) <= 0 ==> index == old(index) && repaint == None
    {
      repaint := None;
      if index > 0 {
        index := index - 1;
        repaint := Some(snapshots[index]);
      }
    }

    /** `redo`: steps forward when the cursor is before the last snapshot. */
    method Redo() returns (repaint: Option<string>)
      requires Valid()
      modifies this`index
      ensures Valid()
      ensures old(index) < |snapshots| - 1 ==> index == old(index) + 1 && repaint == Some(snapshots[index])
      ensures old(index) >= |snapshots| - 1 ==> index == old(index) && repaint == None
    {
      repaint := None;
      if index < |snapshots| - 1 {
        index := index + 1;
        repaint := Some(snapshots[index]);
      }
    }

    /** The tool buttons; choosing the shape tool picks the rectangle when
        no shape was chosen yet. */
    method SelectTool(t: Tool)
      modifies this`tool, this`shape
      ensures tool == t
      ensures shape == if t == ShapeTool && old(shape).None? then Some(Rectangle) else old(shape)
    {
      tool := t;
      if t == ShapeTool && shape.None? {
        shape := Some(Rectangle);
      }
    }

    method SelectShape(k: ShapeKind)
      modifies this`shape
      ensures shape == Some(k)
    {
      shape := Some(k);
    }

    /** The picture test of `startDrawing`: a hit selects the topmost
        picture under the mouse and starts resizing it when a corner handle
        is under the mouse, moving it otherwise; a miss clears the
        selection and the gesture flags. */
    method PickImage(px: real, py: real) returns (hit: bool)
      requires Valid()
      modifies this`selected, this`resizing, this`moving, this`handle, this`lastPos
      ensures Valid()
      ensures hit <==> TopImage(images, px, py).Some?
      ensures hit ==>
        var img := TopImage(images, px, py).value;
        selected == Some(img.id) && handle == HandleAt(img, px, py)
        && resizing == handle.Some? && moving == handle.None? && lastPos == Point(px, py)
      ensures !hit ==>
        selected == None && !moving && !resizing && handle == None && lastPos == old(lastPos)
    {
      var clicked := ImageAtPoint(images, px, py);
      hit := clicked.Some?;
      if clicked.Some? {
        selected := Some(clicked.value.id);
        var h := ResizeHandleAt(clicked.value, px, py);
        if h.Some? {
          resizing, handle, moving := true, h, false;
        } else {
          moving, resizing, handle := true, false, None;
        }
        lastPos := Point(px, py);
      } else {
        selected, moving, resizing, handle := None, false, false, None;
      }
    }

    /** `startDrawing`: the picking tools first test the pictures: a hit
        selects the topmost picture and starts resizing when a corner handle
        is under the mouse, moving otherwise; a miss clears the selection.
        The shape tool (with a shape chosen) starts a shape, the freehand
        tools start a stroke. */
    method StartDrawing(px: real, py: real)
      requires Valid()
      modifies this`selected, this`resizing, this`moving, this`handle
      modifies this`lastPos, this`isDrawing, this`shapeStart
      ensures Valid()
      ensures PicksImages(tool) && TopImage(images, px, py).Some? ==>
        var img := TopImage(images, px, py).value;
        selected == Some(img.id) && handle == HandleAt(img, px, py)
        && resizing == handle.Some? && moving == handle.None? && lastPos == Point(px, py)
        && isDrawing == old(isDrawing) && shapeStart == old(shapeStart)
      ensures PicksImages(tool) && TopImage(images, px, py).None? ==>
        selected == None && !moving && !resizing && handle == None
        && lastPos == old(lastPos) && isDrawing == old(isDrawing) && shapeStart == old(shapeStart)
      ensures !PicksImages(tool) ==>
        selected == old(selected) && moving == old(moving) && resizing == old(resizing)
        && handle == old(handle)
      ensures tool == ShapeTool && shape.Some? ==>
        isDrawing && shapeStart == Some(Point(px, py)) && lastPos == Point(px, py)
      ensures IsPenTool(tool) ==>
        isDrawing && lastPos == Point(px, py) && shapeStart == old(shapeStart)
      ensures !PicksImages(tool) && !IsPenTool(tool) && !(tool == ShapeTool && shape.Some?) ==>
        isDrawing == old(isDrawing) && lastPos == old(lastPos) && shapeStart == old(shapeStart)
    {
      var pos := Point(px, py);
      if tool == ImageTool || tool == Lasso {
        var hit := PickImage(px, py);
        if hit {
          return;
        }
      }
      if tool == ShapeTool && shape.Some? {
        isDrawing := true;
        shapeStart := Some(pos);
        lastPos := pos;
      } else if tool == Pen || tool == Eraser || tool == Highlighter {
        isDrawing := true;
        lastPos := pos;
      }
    }

    /** A selected picture is being dragged. */
    predicate MovingSelected()
      reads this
    {
      moving && Selected(selected)
    }

    /** A selected picture is being resized by one of its handles. */
    predicate ResizingSelected()
      reads this
    {
      !MovingSelected() && resizing && Selected(selected) && handle.Some?
    }

    /** A shape is being dragged out: `draw` only previews it. */
    predicate ShapePreview()
      reads this
    {
      !MovingSelected() && !ResizingSelected() && isDrawing
      && tool == ShapeTool && shape.Some? && shapeStart.Some?
    }

    /** The move branch of `draw`: the picture found under the selected id
        and every other picture with that id move by the mouse delta, and
        the position is recorded; nothing changes when no picture has the id. */
    twostate predicate MovedTo(px: real, py: real)
      reads this
      requires old(MovingSelected())
    {
      if FindImage(old(images), old(selected).value).Some? then
        images == Moved(old(images), old(selected).value, px - old(lastPos).x, py - old(lastPos).y)
        && lastPos == Point(px, py)
      else images == old(images) && lastPos == old(lastPos)
    }

    /** The resize branch of `draw`: the box computed from the found picture
        and the horizontal delta is placed on the pictures with the id. */
    twostate predicate ResizedTo(px: real, py: real)
      reads this
      requires old(ResizingSelected())
    {
      var found := FindImage(old(images), old(selected).value);
      if found.Some? && HasAspect(found.value) then
        images == Resized(old(images), old(selected).value,
                          ResizeBox(found.value, old(handle).value, px - old(lastPos).x))
        && lastPos == Point(px, py)
      else images == old(images) && lastPos == old(lastPos)
    }

    /** What `draw` does outside the shape preview: moves or resizes the
        selected picture, or draws one freehand segment from the last
        position, recording the mouse position in each of these cases. */
    twostate predicate DrawnOutsidePreview(px: real, py: real, new stroke: Option<Stroke>)
      reads this
    {
      if old(MovingSelected()) then stroke == None && MovedTo(px, py)
      else if old(ResizingSelected()) then stroke == None && ResizedTo(px, py)
      else if isDrawing && IsPenTool(tool) then
        images == old(images) && lastPos == Point(px, py)
        && stroke == Some(PenStroke(tool, penColor, penWidth, old(lastPos), Point(px, py)))
      else
        images == old(images) && lastPos == old(lastPos) && stroke == None
    }

    method DragSelected(px: real, py: real)
      requires Valid() && MovingSelected()
      modifies this`images, this`lastPos
      ensures Valid()
      ensures MovedTo(px, py)
    {
      var found := FindImage(images, selected.value);
      if found.Some? {
        var moved := Moved(images, selected.value, px - lastPos.x, py - lastPos.y);
        MovedKeepsAspect(images, selected.value, px - lastPos.x, py - lastPos.y);
        images := moved;
        lastPos := Point(px, py);
      }
    }

    method ResizeSelected(px: real, py: real)
      requires Valid() && ResizingSelected()
      modifies this`images, this`lastPos
      ensures Valid()
      ensures ResizedTo(px, py)
    {
      var found := FindImage(images, selected.value);
      if found.Some? {
        assert HasAspect(found.value);
        var box := ResizeBox(found.value, handle.value, px - lastPos.x);
        var resized := Resized(images, selected.value, box);
        ResizedKeepsAspect(images, selected.value, box);
        images := resized;
        lastPos := Point(px, py);
      }
    }

    /** `draw` (mouse move). The shape preview repaints only, and so does
        not record the mouse position. */
    method Draw(px: real, py: real) returns (stroke: Option<Stroke>)
      requires Valid()
      modifies this`images, this`lastPos
      ensures Valid()
      ensures old(ShapePreview()) ==> images == old(images) && lastPos == old(lastPos) && stroke == None
      ensures !old(ShapePreview()) ==> DrawnOutsidePreview(px, py, stroke)
    {
      stroke := None;
      if moving && Selected(selected) {
        DragSelected(px, py);
        return;
      }
      if resizing && Selected(selected) && handle.Some? {
        ResizeSelected(px, py);
        return;
      }
      if !isDrawing {
        return;
      }
      if tool == ShapeTool && shape.Some? && shapeStart.Some? {
        return;
      }
      if tool == Pen || tool == Eraser || tool == Highlighter {
        var pos := Point(px, py);
        stroke := Some(PenStroke(tool, penColor, penWidth, lastPos, pos));
        lastPos := pos;
      }
    }

    /** `draw` with the shape preview also recording the mouse position,
        so that the shape committed on release ends where the mouse was. */
    method DrawTracked(px: real, py: real) returns (stroke: Option<Stroke>)
      requires Valid()
      modifies this`images, this`lastPos
      ensures Valid()
      ensures old(ShapePreview()) ==> images == old(images) && lastPos == Point(px, py) && stroke == None
      ensures !old(ShapePreview()) ==> DrawnOutsidePreview(px, py, stroke)
    {
      var preview := ShapePreview();
      stroke := Draw(px, py);
      if preview {
        lastPos := Point(px, py);
      }
    }

    /** `stopDrawing` (mouse up or leave). Ending a move or resize commits
        the canvas. Otherwise a gesture in progress ends: a shape is drawn
        from its start to the last recorded position and committed, provided
        the cursor's snapshot is truthy; a stroke is committed. */
    method StopDrawing(snap: string) returns (committed: Option<ShapeDraw>)
      requires Valid()
      modifies this`moving, this`resizing, this`handle, this`snapshots, this`index
      modifies this`isDrawing, this`shapeStart
      ensures Valid()
      ensures old(moving || resizing) ==>
        !moving && !resizing && handle == None && committed == None
        && (snapshots, index) == Pushed(old(snapshots), old(index), snap)
        && isDrawing == old(isDrawing) && shapeStart == old(shapeStart)
      ensures !old(moving || resizing) ==>
        !isDrawing && shapeStart == None
        && moving == old(moving) && resizing == old(resizing) && handle == old(handle)
      ensures !old(moving || resizing) && !old(isDrawing) ==>
        committed == None && snapshots == old(snapshots) && index == old(index)
      ensures !old(moving || resizing) && old(isDrawing)
              && tool == ShapeTool && shape.Some? && old(shapeStart).Some? ==>
        if CurrentSnapshot(old(snapshots), old(index)) != "" then
          committed == Some(ShapeDraw(shape.value, old(shapeStart).value, lastPos))
          && (snapshots, index) == Pushed(old(snapshots), old(index), snap)
        else
          committed == None && snapshots == old(snapshots) && index == old(index)
      ensures !old(moving || resizing) && old(isDrawing)
              && !(tool == ShapeTool && shape.Some? && old(shapeStart).Some?) ==>
        committed == None && (snapshots, index) == Pushed(old(snapshots), old(index), snap)
    {
      committed := None;
      if moving || resizing {
        moving, resizing, handle := false, false, None;
        SaveToHistory(snap);
        return;
      }
      if !isDrawing {
        isDrawing, shapeStart := false, None;
        return;
      }
      if tool == ShapeTool && shape.Some? && shapeStart.Some? {
        var current := CurrentSnapshot(snapshots, index);
        if current != "" {
          committed := Some(ShapeDraw(shape.value, shapeStart.value, lastPos));
          SaveToHistory(snap);
        }
      } else {
        SaveToHistory(snap);
      }
      isDrawing, shapeStart := false, None;
    }

    /** `clearCanvas`: repaints the page, removes every picture and the
        selection, and commits. */
    method ClearCanvas(snap: string)
      requires Valid()
      modifies this`images, this`selected, this`snapshots, this`index
      ensures Valid()
      ensures images == [] && selected == None
      ensures (snapshots, index) == Pushed(old(snapshots), old(index), snap)
    {
      images, selected := [], None;
      SaveToHistory(snap);
    }

    /** `handleImageInsert`: a file whose type does not start with `image/`
        is ignored. Otherwise the decoded picture of `w` × `h` is fitted into
        60% of the canvas, centred, appended on top, selected, and the canvas
        is committed. */
    method InsertImage(fileType: Option<string>, dataUrl: string, w: real, h: real,
                       canvasW: real, canvasH: real, now: int, snap: string)
      requires Valid()
      requires w > 0.0 && h > 0.0 && canvasW >= 0.0 && canvasH >= 0.0
      modifies this`images, this`selected, this`snapshots, this`index
      ensures Valid()
      ensures fileType.None? || !Text.StartsWith(fileType.value, "image/") ==>
        images == old(images) && selected == old(selected)
        && snapshots == old(snapshots) && index == old(index)
      ensures fileType.Some? && Text.StartsWith(fileType.value, "image/") ==>
        images == old(images) + [Placed("img-" + Text.IntToString(now), dataUrl, w, h, canvasW, canvasH)]
        && selected == Some("img-" + Text.IntToString(now))
        && (snapshots, index) == Pushed(old(snapshots), old(index), snap)
    {
      if fileType.None? || !Text.StartsWith(fileType.value, "image/") {
        return;
      }
      var img := Placed("img-" + Text.IntToString(now), dataUrl, w, h, canvasW, canvasH);
      images := images + [img];
      selected := Some(img.id);
      SaveToHistory(snap);
    }

    /** The key handler: undo, redo, or deleting the selected picture when
        no gesture is in progress. */
    method KeyDown(key: string, ctrl: bool, meta: bool, shift: bool, snap: string)
      returns (command: KeyCommand, repaint: Option<string>)
      requires Valid()
      modifies this`images, this`selected, this`snapshots, this`index
      ensures Valid()
      ensures command == KeyCommandOf(key, ctrl, meta, shift)
      ensures command != DeleteKey ==> images == old(images) && selected == old(selected)
      ensures command != DeleteKey ==> snapshots == old(snapshots)
      ensures command == UndoKey ==>
        (old(index) > 0 ==> index == old(index) - 1 && repaint == Some(snapshots[index]))
        && (old(index) <= 0 ==> index == old(index) && repaint == None)
      ensures command == RedoKey ==>
        (old(index) < |snapshots| - 1 ==> index == old(index) + 1 && repaint == Some(snapshots[index]))
        && (old(index) >= |snapshots| - 1 ==> index == old(index) && repaint == None)
      ensures command == DeleteKey && Selected(old(selected)) && !isDrawing && !moving && !resizing ==>
        images == Deleted(old(images), old(selected).value) && selected == None
        && (snapshots, index) == Pushed(old(snapshots), old(index), snap)
      ensures command == DeleteKey && !(Selected(old(selected)) && !isDrawing && !moving && !resizing) ==>
        images == old(images) && selected == old(selected)
        && snapshots == old(snapshots) && index == old(index)
      ensures command == DeleteKey || command == OtherKey ==> repaint == None
      ensures command == OtherKey ==> index == old(index)
    {
      command := KeyCommandOf(key, ctrl, meta, shift);
      repaint := None;
      match command
      case UndoKey =>
        repaint := Undo();
      case RedoKey =>
        repaint := Redo();
      case DeleteKey =>
        if Selected(selected) && !isDrawing && !moving && !resizing {
          images := Deleted(images, selected.value);
          selected := None;
          SaveToHistory(snap);
        }
      case OtherKey =>
    }
  }

  // ---------------------------------------------------------------- shapes

  /** A rectangle dragged from (x0, y0) to (x1, y1) on a fresh page, as the
      handlers are written: the drag never records the mouse, so the
      rectangle drawn on release has zero size at its start point. */
  method ShapeDragAsWritten(page: string, x0: real, y0: real, x1: real, y1: real, snap: string)
    returns (committed: Option<ShapeDraw>)
    requires page != ""
    ensures committed == Some(ShapeDraw(Rectangle, Point(x0, y0), Point(x0, y0)))
  {
    var e := new Editor();
    e.InitHistory(page);
    e.SelectTool(ShapeTool);
    e.StartDrawing(x0, y0);
    assert CurrentSnapshot(e.snapshots, e.index) == page;
    var _ := e.Draw(x1, y1);
    assert e.isDrawing && !e.moving && !e.resizing && e.tool == ShapeTool && e.shape == Some(Rectangle);
    assert e.shapeStart == Some(Point(x0, y0)) && e.lastPos == Point(x0, y0);
    assert CurrentSnapshot(e.snapshots, e.index) == page;
    committed := e.StopDrawing(snap);
  }

  /** The same drag when the preview records the mouse: the rectangle
      spans from the press to the last mouse position. */
  method ShapeDragTracked(page: string, x0: real, y0: real, x1: real, y1: real, snap: string)
    returns (committed: Option<ShapeDraw>)
    requires page != ""
    ensures committed == Some(ShapeDraw(Rectangle, Point(x0, y0), Point(x1, y1)))
  {
    var e := new Editor();
    e.InitHistory(page);
    e.SelectTool(ShapeTool);
    e.StartDrawing(x0, y0);
    assert CurrentSnapshot(e.snapshots, e.index) == page;
    var _ := e.DrawTracked(x1, y1);
    assert e.isDrawing && !e.moving && !e.resizing && e.tool == ShapeTool && e.shape == Some(Rectangle);
    assert e.shapeStart == Some(Point(x0, y0)) && e.lastPos == Point(x1, y1);
    assert CurrentSnapshot(e.snapshots, e.index) == page;
    committed := e.StopDrawing(snap);
  }
}
