# Carousel controller (slider.js) in Dafny

This project models the controller behind the image carousel in `slider.js`:
the `Slider` class and the drag flag that `EnhancedSlider.addDrag` adds. The
controller keeps a slide index that always wraps into `[0, slides.length)`. It
also keeps a play flag and one repeating timer that advances the carousel,
plus the start and end coordinates of a touch or mouse gesture. Swipes longer
than 50 pixels navigate, and the arrow keys, the space bar and hovering steer
it.

It has three modules:

- `JsMath` (`js_math.dfy`) holds JavaScript's `Math.abs` and its truncating
  `%` on integers. It also holds `Wrap`, the source's normalisation
  `(index % total + total) % total`. The proofs show that this formula always
  lands in `[0, total)` and equals the Euclidean modulus.
- `Carousel` (`carousel.dfy`) models the controller's state as one value,
  `State`. Each handler is a function from the state before to the state after.
  The invariant `Valid` says:
  - the index is in range;
  - the only running timer is the one `intervalId` names;
  - the strip, once drawn, shows the current slide.

  The lemmas that relate several calls are stated over these functions.
- `SliderWidget` (`slider.dfy`) holds the class `Slider`. Its fields are the
  source's fields, plus the browser's running intervals and the last drawing.
  Its methods do the same steps as the source. Each is proved to move
  `Model()` exactly as the matching `Carousel` function does.

Two things the source does are preserved on purpose:

- After `clearInterval`, `intervalId` keeps the dead handle. The source never
  resets it.
- The hover listeners change `isPlaying` without calling `update()`. After a
  hover pause, the button still shows the pause glyph (`HoverPauseKeepsGlyph`).

The timer is abstract. `setInterval` hands out a fresh handle and adds it to
the set of live intervals. `clearInterval` removes a handle from that set. A
tick of a live interval is a call to `next()` (`Slider.Tick`).

## Model

| member | source | states |
|---|---|---|
| `JsMath.Abs` | slider.js:60 | the magnitude of the drag distance: the value or its negation, never negative |
| `JsMath.Rem` | slider.js:32 | JavaScript `%`: `a == trunc(a/b)*b + r`, the remainder is smaller in magnitude than the divisor, and it takes the dividend's sign |
| `JsMath.Wrap` | slider.js:32 | for any integer index and `total > 0`, the normalisation formula yields `index mod total`, which lies in `[0, total)` |
| `JsMath.WrapIsModulo` | slider.js:30-34 | the formula written with JavaScript's truncating remainder equals the Euclidean `index % total`, so negative and overflowing indices wrap and are never clamped |
| `JsMath.WrapExamples` | slider.js:32 | with five slides, -1 goes to 4, 5 to 0, 12 to 2 and -6 to 4 |
| `Carousel.WithDefaults` | slider.js:11-16 | each config key the caller gives wins; each absent key takes its default: autoplay on, 4000 ms, pause on hover |
| `Carousel.Initial` | slider.js:2-17 | a new slider is at slide 0, playing, with no timer, no gesture, no drag and nothing drawn yet, and meets the invariant |
| `Carousel.Render` | slider.js:25-28 | `update()` shows the strip shifted by `index * 100` percent and the pause glyph when playing (play glyph otherwise), and changes nothing else |
| `Carousel.GoTo` | slider.js:30-34 | `goTo(i)` accepts every integer, sets the index to `i mod total`, redraws, keeps the invariant and changes nothing else |
| `Carousel.Next` | slider.js:36-38 | `next()` moves to the following slide, from the last to the first, and changes only the index and the drawing |
| `Carousel.Prev` | slider.js:40-42 | `prev()` moves to the preceding slide, from the first to the last, and changes only the index and the drawing |
| `Carousel.SetAutoPlay` | slider.js:44-49 | the old handle's timer is cancelled; afterwards a timer is live exactly when playing with autoplay on, and it has a fresh handle that `intervalId` names; when no timer is started, `intervalId` keeps the cancelled handle; nothing but timer state changes |
| `Carousel.TogglePlay` | slider.js:51-55 | negates the play flag, draws the glyph for the new flag, and leaves a live timer exactly when now playing with autoplay on; nothing but the play flag, the drawing and timer state changes |
| `Carousel.HandleTouch` | slider.js:57-62 | with a 0 (unset) coordinate nothing changes, not even the coordinates; otherwise a drag right of more than 50 is exactly `prev()` and a drag left of more than 50 exactly `next()` (redraw included), 50 or less changes nothing else; then both coordinates are 0 |
| `Carousel.KeyDown` | slider.js:76-80 | the keydown handler keeps the invariant, never touches the gesture, and ignores every other key |
| `Carousel.MouseEnter` | slider.js:82-88 | with pause-on-hover, entering a playing slider pauses it and leaves no timer live; only the play flag and timer state change (no move, no redraw); in every other case nothing changes |
| `Carousel.MouseLeave` | slider.js:82-95 | with pause-on-hover, leaving a paused slider with autoplay on resumes it with a live timer; only the play flag and timer state change (no move, no redraw); in every other case nothing changes |
| `Carousel.Init` | slider.js:19-23 | `init()` draws the current slide and glyph; with autoplay on, a timer is live exactly when playing; with autoplay off, the timers are as before; from a state with no running timer it leaves a timer running exactly when it should; only the drawing and timer state change |
| `Carousel.DragMouseUp` | slider.js:109-114 | the drag mouseup resolves the gesture only while dragging, then ends the drag; otherwise nothing changes |
| `Carousel.AtMostOneTimer` | slider.js:44-49 | at most one timer of a slider is ever live |
| `Carousel.NextThenPrev` | slider.js:36-42 | `next()` then `prev()` returns to the original slide; only the drawing is refreshed |
| `Carousel.PrevThenNext` | slider.js:36-42 | `prev()` then `next()` returns to the original slide; only the drawing is refreshed |
| `Carousel.TogglePlayTwice` | slider.js:51-55 | two toggles restore the play flag, the slide and the glyph for the flag, and leave a timer live exactly when one re-arm would; once the timer is settled (as after `init()`), two toggles restore whether a timer is live |
| `Carousel.SetAutoPlayIdempotent` | slider.js:44-49 | re-arming twice gives the same timer liveness and the same number of live timers as re-arming once, and leaves everything but timer state alone |
| `Carousel.HandleTouchTwice` | slider.js:57-62 | resolving a gesture again right away changes nothing, because the first call cleared it |
| `Carousel.MouseUpNavigatesOnce` | slider.js:109-114 | when the base mouseup and the drag mouseup both run, the carousel moves at most once and only the drag flag differs |
| `Carousel.SwipeLeftAdvances` | slider.js:59-61 | a gesture from 100 to 30 (delta -70) does `next()` and clears both coordinates |
| `Carousel.ShortDragStays` | slider.js:59-61 | a gesture from 100 to 140 (delta 40) keeps the slide |
| `Carousel.ThresholdIsStrict` | slider.js:60 | a drag of exactly 50 pixels either way keeps the slide |
| `Carousel.ZeroStartIsIgnored` | slider.js:58 | a gesture that starts at coordinate 0 counts as unset and is left in place, not reset |
| `Carousel.ArrowKeysNavigate` | slider.js:77-78 | ArrowLeft is exactly `prev()` and ArrowRight is exactly `next()` |
| `Carousel.SpaceToggles` | slider.js:79 | Space is exactly `togglePlay()` |
| `Carousel.LeavingOverridesUserPause` | slider.js:89-94 | after a user pauses with the toggle, leaving the slider resumes playback with a live timer anyway |
| `Carousel.HoverPauseKeepsGlyph` | slider.js:83-88 | after a hover pause the button still shows the pause glyph, because the handler does not redraw |
| `SliderWidget.Slider.constructor` | slider.js:2-17 | the new object is in `Initial` state, with the caller's config merged over the defaults |
| `SliderWidget.Slider.Update` | slider.js:25-28 | only the drawing changes, as `Render` gives |
| `SliderWidget.Slider.Init` | slider.js:19-23 | the object moves as `Init` gives and keeps the invariant |
| `SliderWidget.Slider.GoTo` | slider.js:30-34 | `currentIndex` becomes `index mod total`; the object moves as `GoTo` gives |
| `SliderWidget.Slider.Next` | slider.js:36-38 | the object moves as `Next` gives |
| `SliderWidget.Slider.Prev` | slider.js:40-42 | the object moves as `Prev` gives |
| `SliderWidget.Slider.ClearInterval` | slider.js:45 | the browser stops the interval with that handle and no other |
| `SliderWidget.Slider.SetInterval` | slider.js:47 | the browser starts one interval under a handle never used before |
| `SliderWidget.Slider.SetAutoPlay` | slider.js:44-49 | afterwards the live timers are exactly the one `intervalId` names when playing with autoplay on, and none otherwise; the object moves as `SetAutoPlay` gives |
| `SliderWidget.Slider.TogglePlay` | slider.js:51-55 | the object moves as `TogglePlay` gives |
| `SliderWidget.Slider.Tick` | slider.js:47 | a tick of a live interval is `next()` |
| `SliderWidget.Slider.HandleTouch` | slider.js:57-62 | the object moves as `HandleTouch` gives |
| `SliderWidget.Slider.GestureStart` | slider.js:69-72 | touchstart and mousedown record the start coordinate and change nothing else |
| `SliderWidget.Slider.GestureMove` | slider.js:70-73 | touchmove and mousemove record the end coordinate and change nothing else |
| `SliderWidget.Slider.KeyDown` | slider.js:76-80 | the object moves as `KeyDown` gives |
| `SliderWidget.Slider.MouseEnter` | slider.js:82-88 | the object moves as `MouseEnter` gives |
| `SliderWidget.Slider.MouseLeave` | slider.js:82-95 | the object moves as `MouseLeave` gives |
| `SliderWidget.Slider.DragMouseDown` | slider.js:102-105 | a drag begins and records its start coordinate |
| `SliderWidget.Slider.DragMouseMove` | slider.js:106-108 | the end coordinate moves only while dragging |
| `SliderWidget.Slider.DragMouseUp` | slider.js:109-114 | the object moves as `DragMouseUp` gives |
| `SliderWidget.Slider.DragMouseLeave` | slider.js:115-117 | leaving ends the drag and changes nothing else |

## Left out

- Event registration and page bootstrap (slider.js:64-96, 100-101, 122-130)
  are not modelled. The handler bodies are methods. Which listeners fire on a
  page with both `Slider` and `addDrag` is shown only by
  `MouseUpNavigatesOnce`. The `pauseOnHover` test at line 82 decides whether
  the hover listeners exist. It is modelled as a guard inside those handlers.
- `EnhancedSlider` is not a separate class, because there is no inheritance
  here. Its `isDragging` local is the field `isDragging`, and its listener
  bodies are the `Drag*` methods of `Slider`.
- The DOM is left out: `querySelector`, `style.transform` and `textContent`.
  `update()` records the offset and the glyph it would write as `frame`. The
  element is represented only by its slide count.
- Timing is left out: the `interval` period and the asynchronous delivery of
  ticks. A live interval is a handle in a set, and a tick is `Tick`. Browser
  handles are positive numbers, which are always truthy. The invariant keeps
  every handle positive, so the check `if (this.intervalId)` is modelled as
  "a handle was ever stored".
- A slider with no slides is excluded: the constructor requires at least one.
  In the source, `goTo` would store `NaN` and raise no error. No error is
  invented for it.
- Coordinates are integers. Fractional `clientX` values and JavaScript's
  floating-point numbers are not modelled. 0 stays the "unset" value the
  source tests for.
- `WithDefaults` models the object spread for keys that are present or absent.
  A key that is present with the value `undefined` is not modelled.
