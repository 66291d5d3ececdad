/** The drag-to-resize state machine of `ResizablePanel`
    (components/ui/resizable-panel.tsx). Sizes are percentages of the window
    width and pointer positions are pixels, both modelled as `real`. */
module ResizablePanel {

  /** `Math.max` and `Math.min` on reals. */
  function Max(a: real, b: real): real { if a >= b then a else b }
  function Min(a: real, b: real): real { if a <= b then a else b }

  /** `Math.max(minSize, Math.min(maxSize, value))`. */
  function Clamp(value: real, minSize: real, maxSize: real): (r: real)
    ensures minSize <= maxSize ==> minSize <= r <= maxSize
    ensures minSize <= value <= maxSize ==> r == value
    ensures minSize <= maxSize && value < minSize ==> r == minSize
    ensures minSize <= maxSize && value > maxSize ==> r == maxSize
  {
    Max(minSize, Min(maxSize, value))
  }

  /** The size `handleMouseMove` computes from the drag anchor and the pointer:
      the anchor's size plus the pointer's travel as a percentage of the window
      width, clamped. */
  function DragSize(startSize: real, startX: real, clientX: real, containerWidth: real,
                    minSize: real, maxSize: real): real
    requires containerWidth > 0.0
  {
    Clamp(startSize + (clientX - startX) / containerWidth * 100.0, minSize, maxSize)
  }

  /** The panel's React state and refs. */
  datatype PanelState = PanelState(size: real, isDragging: bool, startX: real, startSize: real)

  /** `handleMouseDown`: start dragging and anchor at the pointer and the current size. */
  function MouseDown(p: PanelState, clientX: real): PanelState {
    p.(isDragging := true, startX := clientX, startSize := p.size)
  }

  /** `handleMouseMove`: ignored unless dragging, else resize from the anchor. */
  function MouseMove(p: PanelState, clientX: real, containerWidth: real,
                     minSize: real, maxSize: real): PanelState
    requires containerWidth > 0.0
  {
    if !p.isDragging then p
    else p.(size := DragSize(p.startSize, p.startX, clientX, containerWidth, minSize, maxSize))
  }

  /** `handleMouseUp`: stop dragging. */
  function MouseUp(p: PanelState): PanelState {
    p.(isDragging := false)
  }

  /** A run of pointer moves at positions `xs`, in order. */
  function Moves(p: PanelState, xs: seq<real>, containerWidth: real,
                 minSize: real, maxSize: real): PanelState
    requires containerWidth > 0.0
    decreases |xs|
  {
    if xs == [] then p
    else Moves(MouseMove(p, xs[0], containerWidth, minSize, maxSize), xs[1..], containerWidth, minSize, maxSize)
  }

  /** After any non-empty run of moves in a drag, the size depends only on the
      anchor and the last pointer position; the anchor and the drag flag stay. */
  lemma {:induction false} MovesPathIndependent(p: PanelState, xs: seq<real>, containerWidth: real,
                                                minSize: real, maxSize: real)
    requires containerWidth > 0.0 && p.isDragging && xs != []
    decreases |xs|
    ensures Moves(p, xs, containerWidth, minSize, maxSize)
         == p.(size := DragSize(p.startSize, p.startX, xs[|xs| - 1], containerWidth, minSize, maxSize))
  {
    var q := MouseMove(p, xs[0], containerWidth, minSize, maxSize);
    if |xs| > 1 {
      MovesPathIndependent(q, xs[1..], containerWidth, minSize, maxSize);
      assert xs[1..][|xs| - 2] == xs[|xs| - 1];
    }
  }

  /** Moves while not dragging change nothing. */
  lemma {:induction false} MovesWhileIdle(p: PanelState, xs: seq<real>, containerWidth: real,
                                          minSize: real, maxSize: real)
    requires containerWidth > 0.0 && !p.isDragging
    ensures Moves(p, xs, containerWidth, minSize, maxSize) == p
  {
    if xs != [] {
      MovesWhileIdle(p, xs[1..], containerWidth, minSize, maxSize);
    }
  }

  /** Every move of a drag leaves the size within the bounds. */
  lemma MovesStayInBounds(p: PanelState, xs: seq<real>, containerWidth: real,
                          minSize: real, maxSize: real)
    requires containerWidth > 0.0 && p.isDragging && xs != [] && minSize <= maxSize
    ensures minSize <= Moves(p, xs, containerWidth, minSize, maxSize).size <= maxSize
  {
    MovesPathIndependent(p, xs, containerWidth, minSize, maxSize);
  }

  /** Pressing and moving back to the press position restores the size, when
      that size was within the bounds. */
  lemma NoDriftAtZeroMovement(p: PanelState, clientX: real, containerWidth: real,
                              minSize: real, maxSize: real)
    requires containerWidth > 0.0 && minSize <= p.size <= maxSize
    ensures MouseMove(MouseDown(p, clientX), clientX, containerWidth, minSize, maxSize).size == p.size
  {
  }

  /** The size never shrinks as the pointer moves right. */
  lemma DragSizeMonotone(startSize: real, startX: real, x1: real, x2: real, containerWidth: real,
                         minSize: real, maxSize: real)
    requires containerWidth > 0.0 && x1 <= x2
    ensures DragSize(startSize, startX, x1, containerWidth, minSize, maxSize)
         <= DragSize(startSize, startX, x2, containerWidth, minSize, maxSize)
  {
    var d1 := (x1 - startX) / containerWidth;
    var d2 := (x2 - startX) / containerWidth;
    assert d2 - d1 == (x2 - x1) / containerWidth;
    assert d1 <= d2;
  }

  /** Releasing twice is releasing once; release never changes the size. */
  lemma MouseUpIdempotent(p: PanelState)
    ensures MouseUp(MouseUp(p)) == MouseUp(p)
    ensures !MouseUp(p).isDragging && MouseUp(p).size == p.size
  {
  }

  /** What the drag effect leaves on `document.body.style`. */
  function CursorFor(engaged: bool): string { if engaged then "ew-resize" else "" }
  function UserSelectFor(engaged: bool): string { if engaged then "none" else "" }

  class Panel {
    const minSize: real
    const maxSize: real
    var size: real
    var isDragging: bool
    var startX: real
    var startSize: real
    /** `document.body.style.cursor` and `document.body.style.userSelect`. */
    var bodyCursor: string
    var bodyUserSelect: string
    /** Whether the document-level `mousemove` and `mouseup` listeners are attached. */
    var listening: bool
    /** Whether the component is mounted (its effect is live). */
    var mounted: bool

    /** The listeners and the body override are engaged exactly while a
        mounted panel is dragging. */
    predicate Valid()
      reads this
    {
      listening == (mounted && isDragging)
      && bodyCursor == CursorFor(mounted && isDragging)
      && bodyUserSelect == UserSelectFor(mounted && isDragging)
    }

    function State(): PanelState
      reads this
    {
      PanelState(size, isDragging, startX, startSize)
    }

    /** Mounting: the initial state, then the effect's first run (not dragging). */
    constructor (defaultSize: real, minSize: real, maxSize: real)
      ensures Valid() && mounted
      ensures State() == PanelState(defaultSize, false, 0.0, defaultSize)
      ensures this.minSize == minSize && this.maxSize == maxSize
    {
      this.minSize := minSize;
      this.maxSize := maxSize;
      size := defaultSize;
      isDragging := false;
      startX := 0.0;
      startSize := defaultSize;
      mounted := true;
      listening := false;
      bodyCursor := "";
      bodyUserSelect := "";
    }

    /** Mounting with the props' default bounds, 15 to 50. */
    constructor WithDefaultBounds(defaultSize: real)
      ensures Valid() && mounted
      ensures State() == PanelState(defaultSize, false, 0.0, defaultSize)
      ensures minSize == 15.0 && maxSize == 50.0
    {
      minSize := 15.0;
      maxSize := 50.0;
      size := defaultSize;
      isDragging := false;
      startX := 0.0;
      startSize := defaultSize;
      mounted := true;
      listening := false;
      bodyCursor := "";
      bodyUserSelect := "";
    }

    /** The effect over `isDragging`: React first runs the previous run's
        cleanup, which clears the body style, then the new run, which sets the
        override when dragging and clears it otherwise. */
    method DragEffect()
      requires mounted
      modifies this`listening, this`bodyCursor, this`bodyUserSelect
      ensures Valid()
    {
      listening := false;
      bodyCursor := "";
      bodyUserSelect := "";
      if isDragging {
        listening := true;
        bodyCursor := "ew-resize";
        bodyUserSelect := "none";
      } else {
        listening := false;
        bodyCursor := "";
        bodyUserSelect := "";
      }
    }

    /** `handleMouseDown(e)`. The effect reruns only when `isDragging` changes. */
    method HandleMouseDown(clientX: real)
      requires Valid() && mounted
      modifies this
      ensures Valid() && mounted
      ensures State() == MouseDown(old(State()), clientX)
      ensures listening && bodyCursor == "ew-resize" && bodyUserSelect == "none"
    {
      var wasDragging := isDragging;
      isDragging := true;
      startX := clientX;
      startSize := size;
      if !wasDragging {
        DragEffect();
      }
    }

    /** `handleMouseMove(e)` with `window.innerWidth` as `containerWidth`; the
        document dispatches it only while `listening`, and the handler itself
        also returns early unless dragging. */
    method HandleMouseMove(clientX: real, containerWidth: real)
      requires Valid() && mounted && containerWidth > 0.0
      modifies this`size
      ensures Valid()
      ensures State() == MouseMove(old(State()), clientX, containerWidth, minSize, maxSize)
      ensures isDragging && minSize <= maxSize ==> minSize <= size <= maxSize
    {
      if !isDragging {
        return;
      }
      var deltaX := clientX - startX;
      var deltaPercentage := deltaX / containerWidth * 100.0;
      size := Max(minSize, Min(maxSize, startSize + deltaPercentage));
    }

    /** `handleMouseUp()`. Releasing when not dragging changes nothing. */
    method HandleMouseUp()
      requires Valid() && mounted
      modifies this
      ensures Valid() && mounted
      ensures State() == MouseUp(old(State()))
      ensures !listening && bodyCursor == "" && bodyUserSelect == ""
      ensures !old(isDragging) ==> bodyCursor == old(bodyCursor) && bodyUserSelect == old(bodyUserSelect)
    {
      var wasDragging := isDragging;
      isDragging := false;
      if wasDragging {
        DragEffect();
      }
    }

    /** Unmounting runs the last cleanup, which always releases the override,
        even in the middle of a drag. */
    method Unmount()
      requires Valid() && mounted
      modifies this
      ensures Valid() && !mounted
      ensures !listening && bodyCursor == "" && bodyUserSelect == ""
      ensures State() == old(State())
    {
      listening := false;
      bodyCursor := "";
      bodyUserSelect := "";
      mounted := false;
    }
  }
}
