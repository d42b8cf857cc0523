# Scroll-driven frame sequencer and mobile menu, in Dafny

This project models the bespoke logic of the landing page script `js/main.js`:

- **initScrollAnimation**: the scroll-driven image sequence. It covers the
  configuration defaults, the frame count, the asset locator for every frame
  (`folder/ezgif-frame-NNN.ext` or `folder/<listed name>`), and the preload
  loop that requests one image per frame. It also covers the `onload` counter,
  which triggers one render on the first completion, and `render`, the guarded
  update of the canvas. The canvas update is a silent no-op when the current
  slot is missing, incomplete or zero-width. Otherwise it resizes only when the
  size differs, clears, and draws the current image at the origin.
- **The mobile menu handlers**: the menu button toggles four class flags, and
  a link click forces the closed configuration.

Layout:

- `frame_names.dfy`, module `FrameNames`: the configuration, the frame count
  and the locator. It defines decimal spelling, `padStart` and a parser that
  reads a generated locator back to its index. The parser proves that
  generated locators are correct and pairwise distinct. Module
  `LocatorExamples` works out the locators of the default configuration, of
  a two-name list, and of the 89-name list the page passes.
- `frame_sequencer.dfy`, module `FrameSequencer`: images, the canvas surface,
  `RenderStep`, and the events that drive the closure (image loaded, image
  failed, tween update). `Step` and `Run` are the specification, and the
  invariants of every reachable state are proved over them. The classes
  `Canvas` and `ScrollAnimation` hold the mutable state the script keeps in
  its closure. Their methods (`Render`, `OnLoad`, `OnError`, `OnUpdate` and
  the constructor, which runs the preload loop and the eager render) are
  proved against `RenderStep` and `Step`.
- `mobile_menu.dfy`, module `MobileMenu`: the four flags, the two handlers as
  functions and as methods of class `Menu`, and what any sequence of clicks
  leads to.

Inputs the script gets from its environment become parameters. The current
frame index (`airpods.frame`, written by the scroll-linked tween) is the
argument of `OnUpdate`. An image completing or failing is an `OnLoad` or
`OnError` call, carrying the image's index and natural size.

Some behaviours of the code are easy to misread:

- The render that the first completed load triggers draws the *current*
  frame, not the image that loaded. Suppose another image completes before
  the current frame's image. That render then finds nothing to draw, and the
  current frame's own completion no longer renders, because the counter is
  past 1. The canvas stays as it was until the next tween update, although
  the current frame is ready (`FirstLoadElsewhereLeavesCanvas`).
- The canvas is resized whenever the current image's size differs from the
  canvas, not only for the first image drawn.
- An explicit list of names, even an empty one, is truthy and decides the
  frame count. An empty list gives zero frames whatever `totalFrames` says.
- In list mode an index past the list yields the locator `folder/undefined`.
  Generated mode yields a locator for every index the model admits, and a
  number of four or more digits is not truncated.

## Model

| member | source | states |
|---|---|---|
| FrameNames.FrameCount | js/main.js:74 | `specificFrames ? specificFrames.length : totalFrames`: the list length when a list is given, `totalFrames` otherwise |
| FrameNames.FrameCountSelection | js/main.js:66-74 | a supplied list's length is the frame count, whatever `totalFrames` is; otherwise `totalFrames`, 240 by default |
| FrameNames.ImageCount | js/main.js:86 | the preload loop runs `frameCount` times, and not at all for a count of zero or below |
| FrameNames.Decimal | js/main.js:77 | the decimal spelling of a number is non-empty digits, with a leading zero only for 0, and one character exactly below 10 |
| FrameNames.DecimalRoundTrip | js/main.js:77 | reading the decimal spelling back gives the number |
| FrameNames.DecimalWidth | js/main.js:77 | the spelling has at most three digits exactly below 1000 |
| FrameNames.PadStart | js/main.js:77 | `padStart` reaches the target width by filling on the left, keeps the original string as its tail, and never truncates |
| FrameNames.LeadingZerosValue | js/main.js:77 | zero padding does not change the number the digits denote |
| FrameNames.FrameNumberFacts | js/main.js:77 | the padded frame number denotes the number, is three characters below 1000 and keeps every digit from 1000 on |
| FrameNames.FrameNumber | js/main.js:77 | `n.toString().padStart(3, '0')`: the decimal spelling of `n`, left-filled with zeros to three characters |
| FrameNames.CurrentFrame | js/main.js:75-78 | `currentFrame(index)`: in list mode the folder, a slash and the listed name (`undefined` past the list); otherwise the folder, `/ezgif-frame-`, the padded `index + 1`, a dot and the extension |
| FrameNames.GeneratedLocator | js/main.js:77 | generated mode: folder, `/ezgif-frame-`, the padded `index + 1`, a dot and the extension |
| FrameNames.GeneratedLocatorRoundTrip | js/main.js:75-78 | parsing a generated locator gives back the index it was made for |
| FrameNames.GeneratedLocatorsDistinct | js/main.js:77 | in generated mode two indices get the same locator exactly when they are equal |
| FrameNames.ParseJoined | js/main.js:77 | the locator parser reads back any non-zero digit string placed between the generated prefix and suffix |
| FrameNames.ListLocator | js/main.js:76 | list mode: the folder, a slash and the listed name; the extension plays no part |
| LocatorExamples.PaddedExamples | js/main.js:77 | 1 pads to `001`, 240 stays `240`, 1000 stays `1000` |
| LocatorExamples.DefaultLocator | js/main.js:64-77 | the default configuration locates frame `index` at `animation/ezgif-frame-` + the padded `index + 1` + `.webp`, over 240 frames; with the padding examples, index 0 gives `-001.webp` and index 239 gives `-240.webp` |
| LocatorExamples.PageLocators | js/main.js:217-245 | the page's own call lists 89 names in `old_animation`: 89 frames, index 0 gives `old_animation/ezgif-frame-006.png`, index 88 gives `old_animation/ezgif-frame-132.png`, index 89 gives `old_animation/undefined` |
| LocatorExamples.ListLocatorExample | js/main.js:76 | list `a.png`, `b.png` in `old_animation`: index 1 gives `old_animation/b.png`, index 2 gives `old_animation/undefined` |
| FrameSequencer.Requested | js/main.js:87-88 | `new Image()` with `src` assigned: the locator, not complete, natural size 0 x 0 |
| FrameSequencer.Preload | js/main.js:80-94 | the table has exactly `frameCount` entries, and entry `i` is an image requested from `currentFrame(i)`, in index order |
| FrameSequencer.Slot | js/main.js:112 | `images[airpods.frame]` exists exactly for an index inside the table |
| FrameSequencer.Drawable | js/main.js:112-113 | render proceeds exactly when the slot exists, is complete and has non-zero natural width |
| FrameSequencer.RequestedTableNotDrawable | js/main.js:124 | the eager render at set-up finds nothing to draw at any index |
| FrameSequencer.RenderStep | js/main.js:111-122 | a non-drawable slot leaves the canvas unchanged; otherwise the canvas takes the image's natural size and shows that image alone at the origin, with a resize counted only when the size differed |
| FrameSequencer.RenderIdempotent | js/main.js:115-121 | rendering the same frame twice equals rendering it once, so it does not resize again |
| FrameSequencer.Step | js/main.js:89-108 | a load adds one to `imagesLoaded` and renders only when the counter was 0; a failure changes only the image; a tween update sets the frame and renders; the table keeps its size and locators |
| FrameSequencer.FirstLoadRenders | js/main.js:89-92 | the first completion renders whichever index it concerns, and paints that image when it is the current frame |
| FrameSequencer.RepeatedScrollIdempotent | js/main.js:108 | a repeated update to the same frame changes nothing further |
| FrameSequencer.Run | js/main.js:85-92 | after any sequence of events `imagesLoaded` has grown by the number of load completions, and the table keeps its size and locators |
| FrameSequencer.RendersOnceOnLoad | js/main.js:85-92 | over any run the load handlers render exactly once if some image loaded, and never otherwise |
| FrameSequencer.CompletedSettle | js/main.js:89-90 | an image completing raises the number of completed images by one |
| FrameSequencer.InitialConsistent | js/main.js:80-94 | the state after preloading satisfies the sequencer's invariant |
| FrameSequencer.StepConsistent | js/main.js:85-122 | every event preserves the invariant: locators fixed, loads not above completions, one load-triggered render once something loaded, canvas untouched or showing one completed image of the table |
| FrameSequencer.RunConsistent | js/main.js:85-122 | every reachable state satisfies the invariant, and there are never more load completions than frames |
| FrameSequencer.FirstLoadElsewhereLeavesCanvas | js/main.js:89-92 | if a non-current image completes first, the canvas is unchanged after the current frame also completes, although that frame is drawable |
| FrameSequencer.ScrollAnimation.constructor | js/main.js:80-124 | set-up builds the requested table, starts at frame 0 with no loads, and leaves the canvas as it found it |
| FrameSequencer.ScrollAnimation.Render | js/main.js:111-122 | the canvas afterwards is `RenderStep` of the canvas before, for the current table and frame |
| FrameSequencer.ScrollAnimation.OnLoad | js/main.js:89-92 | the closure state afterwards is `Step` of the state before, for a load of that image |
| FrameSequencer.ScrollAnimation.OnError | js/main.js:113 | a failed image becomes complete with zero size, and nothing else changes |
| FrameSequencer.ScrollAnimation.OnUpdate | js/main.js:108 | the tween update sets the frame and renders, as `Step` says |
| MobileMenu.Toggled | js/main.js:200-203 | the button handler flips all four flags; it keeps a coherent menu coherent and an incoherent one incoherent, and opens exactly a closed menu |
| MobileMenu.LinkClicked | js/main.js:208-211 | a link handler sets the menu hidden and not flex, shows the hamburger and hides the close icon |
| MobileMenu.ToggleFacts | js/main.js:199-204 | two button clicks restore all four flags; one click changes them and swaps open and closed |
| MobileMenu.LinkClickCloses | js/main.js:206-212 | a link click yields the closed flags from any state and is idempotent |
| MobileMenu.ToggledTimesParity | js/main.js:199-204 | n button clicks equal no click for even n and one click for odd n |
| MobileMenu.ClicksOutcome | js/main.js:199-212 | after any clicks the menu is closed or open by the parity of button clicks since the last link click; with no link click it is the start toggled once per button click |
| MobileMenu.CoherentAfterClicks | js/main.js:199-212 | the flags are open or closed after clicks exactly when they were at the start or some link was clicked |
| MobileMenu.Menu.ClickButton | js/main.js:199-204 | the button handler toggles each of the four flags |
| MobileMenu.Menu.ClickLink | js/main.js:207-212 | a link handler sets the closed flags |

## Left out

- `initThree` (js/main.js:1-58) is not part of this model. It is a WebGL particle field with random float positions, mouse easing and an animation-frame loop, all inside a graphics library.
- The tween and scroll-trigger set-up (js/main.js:96-107), the entrance timelines (js/main.js:127-170) and the parallax layers (js/main.js:317-347) are not modelled. The scroll-to-progress mapping, the `snap` rounding, scrub and easing belong to the animation library. The frame index the tween writes is an input of `OnUpdate`, which may be any integer.
- The random beams and the grid animation (js/main.js:249-315) are not modelled. They are driven by `Math.random`, timers and tweens.
- The hover colour handlers of the module and solve cards (js/main.js:172-187, js/main.js:349-366) are not modelled. They are sibling queries that feed tween calls.
- The DOM lookups are not modelled: the early return when the canvas is missing (js/main.js:70-72), the `innerWidth >= 1024` gate (js/main.js:216), and the guard on the menu elements (js/main.js:198). The canvas and trigger identifiers are therefore not part of `Config`. If the icon elements are missing, the button handler throws after toggling the menu's classes; that case is not modelled.
- Image decoding, fetch order and pixels are abstract. An image is a readiness record, and the canvas bitmap is the list of draws since it was last cleared. Load completions arrive in any order, as `OnLoad`/`OnError` calls.
- FrameNames.Decimal, FrameNames.GeneratedLocatorsDistinct: `index + 1` is a JavaScript double, so these hold in the source only while `index + 1` is at most 2^53, where every integer is exact. Above that, neighbouring numbers round to the same double: indices 2^53 - 1 and 2^53 both give `...-9007199254740992.<extension>`. From 10^21 on, `toString()` switches to exponent form (`1e+21`), which is not a digit string. The model uses exact integers. No configuration reaches such counts, and the preload loop's `i++` stops advancing at 2^53.
- ScrollAnimation.OnLoad, ScrollAnimation.OnError, FrameSequencer.RequestedTableNotDrawable, FrameSequencer.ScrollAnimation.constructor: the model assumes that each image completes once and only after its request. `OnLoad` and `OnError` therefore require that the image has not completed, and `Requested` builds an image that is not complete. `RequestedTableNotDrawable`, and the constructor's promise to leave the canvas as it found it, rest on the same assumption. An image the browser serves from cache may already be `complete` when `img.src` is assigned. For a cached frame 0, the eager `render()` at js/main.js:124 would draw it. That ordering is not modelled.
- `totalFrames` is modelled as an integer. A fractional count would make the loop run up to the next integer; that case is not modelled. `airpods.frame` is likewise an integer, since the tween snaps it.
- The image table is a sequence of values that the event methods replace entry by entry. The browser instead updates the image elements in place. Nothing else holds these elements, so no aliasing is lost.
