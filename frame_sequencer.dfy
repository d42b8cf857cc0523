/** The scroll-driven image sequence of initScrollAnimation (js/main.js): the
    preloaded image table, the load-completion counter that triggers the first
    render, and the guarded render step that paints the current frame onto the
    canvas. Image decoding and the 2D context are represented abstractly: an
    image is a readiness record, the canvas a size and the list of draws on it
    since it was last cleared. */
module FrameSequencer {
  import opened FrameNames

  // ---------------------------------------------------------------------
  // Images and the preload table

  /** An image element as far as render reads it: the locator it was
      requested from, whether loading has finished (successfully or not) and
      its natural size (0 x 0 until decoded, and for a broken image). */
  datatype Image = Image(src: string, complete: bool, naturalWidth: nat, naturalHeight: nat)

  /** `new Image()` with `src` assigned: requested, nothing decoded yet. */
  function Requested(src: string): Image
  {
    Image(src, false, 0, 0)
  }

  /** The table the preload loop builds: one requested image per frame index,
      in index order, each from the locator of its own index. */
  predicate IsRequestedTable(c: Config, images: seq<Image>)
  {
    && |images| == ImageCount(c)
    && forall i :: 0 <= i < |images| ==> images[i] == Requested(CurrentFrame(c, i))
  }

  /** The preload loop: `for (i = 0; i < frameCount; i++) images.push(img)`
      with `img.src = currentFrame(i)`. */
  method Preload(c: Config) returns (images: seq<Image>)
    ensures IsRequestedTable(c, images)
  {
    var frameCount := FrameCount(c);
    images := [];
    var i := 0;
    while i < frameCount
      invariant 0 <= i == |images| <= ImageCount(c)
      invariant forall k :: 0 <= k < i ==> images[k] == Requested(CurrentFrame(c, k))
    {
      images := images + [Requested(CurrentFrame(c, i))];
      i := i + 1;
    }
  }

  /** The image at a frame index: `images[airpods.frame]`, which is
      `undefined` (here `None`) for an index outside the table. */
  function Slot(images: seq<Image>, frame: int): (r: Option<Image>)
    ensures r.Some? <==> 0 <= frame < |images|
    ensures r.Some? ==> r.value == images[frame]
  {
    if 0 <= frame < |images| then Some(images[frame]) else None
  }

  /** The guard of render: the slot exists, has finished loading and has a
      non-zero natural width. */
  function Drawable(images: seq<Image>, frame: int): (r: Option<Image>)
    ensures r.Some? <==>
              0 <= frame < |images| && images[frame].complete && images[frame].naturalWidth != 0
    ensures r.Some? ==> r.value == images[frame]
  {
    match Slot(images, frame)
    case None => None
    case Some(img) => if !img.complete || img.naturalWidth == 0 then None else Some(img)
  }

  /** A freshly requested table has nothing to draw, at any index. */
  lemma RequestedTableNotDrawable(c: Config, images: seq<Image>, frame: int)
    requires IsRequestedTable(c, images)
    ensures Drawable(images, frame) == None
  {
    if 0 <= frame < |images| {
      assert images[frame] == Requested(CurrentFrame(c, frame));
    }
  }

  // ---------------------------------------------------------------------
  // The canvas

  /** `drawImage(image, x, y)` at the image's natural size. */
  datatype Draw = Draw(image: Image, x: int, y: int)

  /** The canvas element and its bitmap: the pixel size, the draws made since
      the bitmap was last cleared, and how many times the size was assigned
      (an instrumentation count, not a browser property). */
  datatype Surface = Surface(width: nat, height: nat, contents: seq<Draw>, resizes: nat)

  /** Assigning `canvas.width` and `canvas.height`, which also resets the bitmap. */
  function Resized(s: Surface, width: nat, height: nat): Surface
  {
    Surface(width, height, [], s.resizes + 1)
  }

  /** `context.clearRect(0, 0, canvas.width, canvas.height)`: the whole bitmap. */
  function Cleared(s: Surface): Surface
  {
    s.(contents := [])
  }

  /** `context.drawImage(img, x, y)`: painted over what is already there. */
  function DrawnAt(s: Surface, img: Image, x: int, y: int): Surface
  {
    s.(contents := s.contents + [Draw(img, x, y)])
  }

  /** The canvas shows exactly `img`, alone, at the origin and at its natural size. */
  predicate Painted(s: Surface, img: Image)
  {
    && img.complete && img.naturalWidth != 0
    && s.width == img.naturalWidth && s.height == img.naturalHeight
    && s.contents == [Draw(img, 0, 0)]
  }

  /** Some image of the table is what the canvas shows. */
  ghost predicate ShowsOneOf(s: Surface, images: seq<Image>)
  {
    exists k :: 0 <= k < |images| && Painted(s, images[k])
  }

  /** render(): a silent no-op unless the current slot is drawable; otherwise
      resize only if the size differs, clear, and draw the one current image
      at the origin. */
  function RenderStep(s: Surface, images: seq<Image>, frame: int): (r: Surface)
    ensures Drawable(images, frame).None? ==> r == s
    ensures Drawable(images, frame).Some? ==> Painted(r, images[frame])
    ensures r.resizes == s.resizes +
              (if Drawable(images, frame).Some? &&
                  (s.width != images[frame].naturalWidth || s.height != images[frame].naturalHeight)
               then 1 else 0)
  {
    match Drawable(images, frame)
    case None => s
    case Some(img) =>
      var sized :=
        if s.width != img.naturalWidth || s.height != img.naturalHeight
        then Resized(s, img.naturalWidth, img.naturalHeight)
        else s;
      DrawnAt(Cleared(sized), img, 0, 0)
  }

  /** Rendering the same frame again changes nothing: in particular it does
      not resize a second time. */
  lemma RenderIdempotent(s: Surface, images: seq<Image>, frame: int)
    ensures RenderStep(RenderStep(s, images, frame), images, frame) == RenderStep(s, images, frame)
  {
  }

  // ---------------------------------------------------------------------
  // Events and the state they drive

  /** What happens to the sequencer from outside: an image finished decoding
      with the given natural size (its `onload`), an image failed (no
      `onload`, the element is complete with zero size), or the scroll-linked
      tween moved `airpods.frame` and called render (its `onUpdate`). */
  datatype Event =
    | Loaded(index: nat, width: nat, height: nat)
    | Failed(index: nat)
    | Scrolled(frame: int)

  /** Everything initScrollAnimation's closure holds that changes: the image
      table, `imagesLoaded`, `airpods.frame`, the canvas, and how many renders
      the `onload` handlers have triggered (instrumentation). */
  datatype AnimState = AnimState(
    images: seq<Image>,
    imagesLoaded: nat,
    frame: int,
    canvas: Surface,
    loadRenders: nat)

  /** A load event concerns an image of the table that has not finished yet:
      each image completes once. */
  predicate Enabled(st: AnimState, e: Event)
  {
    match e
    case Loaded(i, _, _) => i < |st.images| && !st.images[i].complete
    case Failed(i) => i < |st.images| && !st.images[i].complete
    case Scrolled(_) => true
  }

  function Settled(img: Image, width: nat, height: nat): Image
  {
    img.(complete := true, naturalWidth := width, naturalHeight := height)
  }

  /** One event. A load bumps `imagesLoaded` and renders when the counter has
      just become 1; a failure only marks the image; a scroll update sets the
      frame and renders. */
  function Step(st: AnimState, e: Event): (r: AnimState)
    requires Enabled(st, e)
    ensures |r.images| == |st.images|
    ensures forall k :: 0 <= k < |st.images| ==> r.images[k].src == st.images[k].src
    ensures r.imagesLoaded == st.imagesLoaded + (if e.Loaded? then 1 else 0)
    ensures r.loadRenders == st.loadRenders + (if e.Loaded? && st.imagesLoaded == 0 then 1 else 0)
    ensures r.frame == if e.Scrolled? then e.frame else st.frame
    ensures e.Scrolled? ==> r.canvas == RenderStep(st.canvas, st.images, e.frame)
    ensures e.Failed? || (e.Loaded? && st.imagesLoaded > 0) ==> r.canvas == st.canvas
  {
    match e
    case Loaded(i, w, h) =>
      var images := st.images[i := Settled(st.images[i], w, h)];
      var loaded := st.imagesLoaded + 1;
      if loaded == 1 then
        st.(images := images, imagesLoaded := loaded,
            canvas := RenderStep(st.canvas, images, st.frame), loadRenders := st.loadRenders + 1)
      else
        st.(images := images, imagesLoaded := loaded)
    case Failed(i) =>
      st.(images := st.images[i := Settled(st.images[i], 0, 0)])
    case Scrolled(f) =>
      st.(frame := f, canvas := RenderStep(st.canvas, st.images, f))
  }

  /** The first load renders, whichever index it concerns; it paints that
      image only when it is the current frame. */
  lemma FirstLoadRenders(st: AnimState, i: nat, w: nat, h: nat)
    requires Enabled(st, Loaded(i, w, h)) && st.imagesLoaded == 0
    ensures var r := Step(st, Loaded(i, w, h));
            r.canvas == RenderStep(st.canvas, r.images, st.frame) &&
            (i as int == st.frame && w != 0 ==> Painted(r.canvas, r.images[i]))
  {
  }

  /** A repeated scroll update to the same frame changes nothing more. */
  lemma RepeatedScrollIdempotent(st: AnimState, f: int)
    ensures Step(Step(st, Scrolled(f)), Scrolled(f)) == Step(st, Scrolled(f))
  {
    RenderIdempotent(st.canvas, st.images, f);
  }

  // ---------------------------------------------------------------------
  // Traces

  predicate ValidTrace(st: AnimState, events: seq<Event>)
    decreases |events|
  {
    events == [] || (Enabled(st, events[0]) && ValidTrace(Step(st, events[0]), events[1..]))
  }

  function LoadCount(events: seq<Event>): nat
  {
    if events == [] then 0 else (if events[0].Loaded? then 1 else 0) + LoadCount(events[1..])
  }

  /** The state after a sequence of events. Each load completion adds one to
      `imagesLoaded`; the table keeps its size and its locators. */
  function Run(st: AnimState, events: seq<Event>): (r: AnimState)
    requires ValidTrace(st, events)
    ensures |r.images| == |st.images|
    ensures forall k :: 0 <= k < |st.images| ==> r.images[k].src == st.images[k].src
    ensures r.imagesLoaded == st.imagesLoaded + LoadCount(events)
    decreases |events|
  {
    if events == [] then st else Run(Step(st, events[0]), events[1..])
  }

  /** Over any run the `onload` handlers render exactly once if some image
      loaded, and never otherwise. */
  lemma {:induction false} RendersOnceOnLoad(st: AnimState, events: seq<Event>)
    requires ValidTrace(st, events)
    requires st.loadRenders == (if st.imagesLoaded == 0 then 0 else 1)
    ensures var r := Run(st, events);
            r.loadRenders == (if r.imagesLoaded == 0 then 0 else 1)
    ensures st.imagesLoaded == 0 ==>
              Run(st, events).loadRenders == (if LoadCount(events) == 0 then 0 else 1)
    decreases |events|
  {
    if events != [] {
      RendersOnceOnLoad(Step(st, events[0]), events[1..]);
    }
  }

  /** The number of images that have finished loading, successfully or not. */
  function Completed(images: seq<Image>): (n: nat)
    ensures n <= |images|
  {
    if images == [] then 0
    else Completed(images[..|images| - 1]) + (if images[|images| - 1].complete then 1 else 0)
  }

  lemma {:induction false} CompletedSettle(images: seq<Image>, i: nat, img: Image)
    requires i < |images| && !images[i].complete && img.complete
    ensures Completed(images[i := img]) == Completed(images) + 1
    decreases |images|
  {
    var n := |images|;
    var updated := images[i := img];
    if i < n - 1 {
      assert updated[..n - 1] == images[..n - 1][i := img];
      CompletedSettle(images[..n - 1], i, img);
    } else {
      assert updated[..n - 1] == images[..n - 1];
    }
  }

  /** The state reachable from configuration `c` and an initial canvas: the
      table holds one image per frame with that frame's locator; the load
      counter never exceeds the completed images; the load handlers have
      rendered at most once, exactly when some image loaded; and the canvas is
      either untouched or shows exactly one completed image of the table. */
  ghost predicate Consistent(c: Config, init: Surface, st: AnimState)
  {
    && |st.images| == ImageCount(c)
    && (forall k :: 0 <= k < |st.images| ==> st.images[k].src == CurrentFrame(c, k))
    && st.imagesLoaded <= Completed(st.images)
    && st.loadRenders == (if st.imagesLoaded == 0 then 0 else 1)
    && (st.canvas == init || ShowsOneOf(st.canvas, st.images))
  }

  function Initial(images: seq<Image>, canvas: Surface): AnimState
  {
    AnimState(images, 0, 0, canvas, 0)
  }

  lemma InitialConsistent(c: Config, images: seq<Image>, canvas: Surface)
    requires IsRequestedTable(c, images)
    ensures Consistent(c, canvas, Initial(images, canvas))
  {
    forall k | 0 <= k < |images| ensures images[k].src == CurrentFrame(c, k) {
      assert images[k] == Requested(CurrentFrame(c, k));
    }
  }

  /** A completed image never changes again, so a canvas showing one keeps
      matching the table. */
  lemma PaintedSurvivesSettle(s: Surface, images: seq<Image>, i: nat, img: Image)
    requires i < |images| && !images[i].complete
    requires ShowsOneOf(s, images)
    ensures ShowsOneOf(s, images[i := img])
  {
    var k :| 0 <= k < |images| && Painted(s, images[k]);
    assert k != i;
    assert images[i := img][k] == images[k];
  }

  lemma RenderKeepsShown(c: Config, init: Surface, s: Surface, images: seq<Image>, frame: int)
    requires s == init || ShowsOneOf(s, images)
    ensures var r := RenderStep(s, images, frame);
            r == init || ShowsOneOf(r, images)
  {
    if Drawable(images, frame).Some? {
      assert Painted(RenderStep(s, images, frame), images[frame]);
    }
  }

  lemma StepConsistent(c: Config, init: Surface, st: AnimState, e: Event)
    requires Consistent(c, init, st) && Enabled(st, e)
    ensures Consistent(c, init, Step(st, e))
  {
    var r := Step(st, e);
    match e
    case Loaded(i, w, h) =>
      var images := st.images[i := Settled(st.images[i], w, h)];
      CompletedSettle(st.images, i, Settled(st.images[i], w, h));
      if st.canvas != init {
        PaintedSurvivesSettle(st.canvas, st.images, i, Settled(st.images[i], w, h));
      }
      if st.imagesLoaded == 0 {
        RenderKeepsShown(c, init, st.canvas, images, st.frame);
      }
    case Failed(i) =>
      CompletedSettle(st.images, i, Settled(st.images[i], 0, 0));
      if st.canvas != init {
        PaintedSurvivesSettle(st.canvas, st.images, i, Settled(st.images[i], 0, 0));
      }
    case Scrolled(f) =>
      RenderKeepsShown(c, init, st.canvas, st.images, f);
  }

  /** Every state a run reaches from a consistent one is consistent. In
      particular the canvas never composites two frames, and there are never
      more load completions than frames. */
  lemma {:induction false} RunConsistent(c: Config, init: Surface, st: AnimState, events: seq<Event>)
    requires Consistent(c, init, st) && ValidTrace(st, events)
    ensures Consistent(c, init, Run(st, events))
    ensures Run(st, events).imagesLoaded <= ImageCount(c)
    decreases |events|
  {
    if events != [] {
      StepConsistent(c, init, st, events[0]);
      RunConsistent(c, init, Step(st, events[0]), events[1..]);
    }
  }

  /** When another image completes before the current frame's, the one render
      the load handlers trigger finds nothing to draw, and the current frame's
      own completion no longer renders: the canvas stays as it was although the
      current frame is ready. */
  lemma FirstLoadElsewhereLeavesCanvas(st: AnimState, w: nat, h: nat)
    requires |st.images| >= 2 && st.frame == 0 && st.imagesLoaded == 0
    requires !st.images[0].complete && !st.images[1].complete
    requires w != 0
    ensures ValidTrace(st, [Loaded(1, w, h), Loaded(0, w, h)])
    ensures var r := Run(st, [Loaded(1, w, h), Loaded(0, w, h)]);
            r.canvas == st.canvas && Drawable(r.images, r.frame).Some?
  {
    var s1 := Step(st, Loaded(1, w, h));
    assert Drawable(s1.images, 0) == None;
    var s2 := Step(s1, Loaded(0, w, h));
    assert [Loaded(1, w, h), Loaded(0, w, h)][1..] == [Loaded(0, w, h)];
    assert Run(s1, [Loaded(0, w, h)]) == s2 by {
      assert [Loaded(0, w, h)][1..] == [];
    }
  }

  // ---------------------------------------------------------------------
  // The objects

  /** The canvas element. A new one is 300 x 150 and blank. */
  class Canvas {
    var width: nat
    var height: nat
    var contents: seq<Draw>
    ghost var resizes: nat

    constructor ()
      ensures View() == Surface(300, 150, [], 0)
    {
      width, height, contents, resizes := 300, 150, [], 0;
    }

    ghost function View(): Surface
      reads this
    {
      Surface(width, height, contents, resizes)
    }
  }

  /** The closure initScrollAnimation leaves behind: its configuration, the
      canvas, the image table, `airpods.frame` and `imagesLoaded`. Each method
      is one of the callbacks and is proved against Step. */
  class ScrollAnimation {
    const config: Config
    const canvas: Canvas
    var images: seq<Image>
    var frame: int
    var imagesLoaded: nat
    ghost var loadRenders: nat

    ghost function State(): AnimState
      reads this, canvas
    {
      AnimState(images, imagesLoaded, frame, canvas.View(), loadRenders)
    }

    /** Set-up: build the table, start at frame 0, and render once eagerly,
        which draws nothing because no image has completed yet. */
    constructor (config: Config, canvas: Canvas)
      modifies canvas
      ensures this.config == config && this.canvas == canvas
      ensures IsRequestedTable(config, images)
      ensures State() == Initial(images, old(canvas.View()))
      ensures Consistent(config, old(canvas.View()), State())
    {
      this.config := config;
      this.canvas := canvas;
      var table := Preload(config);
      images := table;
      frame := 0;
      imagesLoaded := 0;
      loadRenders := 0;
      new;
      RequestedTableNotDrawable(config, images, frame);
      Render();
      InitialConsistent(config, images, canvas.View());
    }

    /** render() */
    method Render()
      modifies canvas
      ensures canvas.View() == RenderStep(old(canvas.View()), images, frame)
    {
      if !(0 <= frame < |images|) {
        return;
      }
      var img := images[frame];
      if !img.complete || img.naturalWidth == 0 {
        return;
      }
      if canvas.width != img.naturalWidth || canvas.height != img.naturalHeight {
        canvas.width := img.naturalWidth;
        canvas.height := img.naturalHeight;
        canvas.contents := [];
        canvas.resizes := canvas.resizes + 1;
      }
      canvas.contents := [];
      canvas.contents := canvas.contents + [Draw(img, 0, 0)];
    }

    /** Image `i` decoded at `w` x `h`, then its `onload` handler ran. */
    method OnLoad(i: nat, w: nat, h: nat)
      requires Enabled(State(), Loaded(i, w, h))
      modifies this, canvas
      ensures State() == Step(old(State()), Loaded(i, w, h))
    {
      images := images[i := Settled(images[i], w, h)];
      imagesLoaded := imagesLoaded + 1;
      if imagesLoaded == 1 {
        loadRenders := loadRenders + 1;
        Render();
      }
    }

    /** Image `i` failed to load: complete, with no natural size, and no handler runs. */
    method OnError(i: nat)
      requires Enabled(State(), Failed(i))
      modifies this
      ensures State() == Step(old(State()), Failed(i))
    {
      images := images[i := Settled(images[i], 0, 0)];
    }

    /** The tween's update: `airpods.frame` moved to `f`, then render. */
    method OnUpdate(f: int)
      modifies this, canvas
      ensures State() == Step(old(State()), Scrolled(f))
    {
      frame := f;
      Render();
    }
  }
}
