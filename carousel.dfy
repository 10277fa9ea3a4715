/**
  The carousel controller as a state machine on values: one `State` holds
  everything the `Slider` object of slider.js owns or drives (slide index,
  play flag, the timer handle and the browser's live timers, the gesture
  coordinates, the drag flag and what the page currently shows), and each
  handler of the source is a function from the state before to the state
  after. The class in slider.dfy is proved to follow these functions.
 */
module Carousel {
  import opened JsMath

  datatype Option<T> = None | Some(value: T)

  /** The merged `config` object; it never changes after construction. */
  datatype Config = Config(autoPlay: bool, interval: int, pauseOnHover: bool)

  /** The object a caller passes to the constructor: each key may be absent. */
  datatype Overrides = Overrides(autoPlay: Option<bool>, interval: Option<int>, pauseOnHover: Option<bool>)

  const DefaultConfig := Config(true, 4000, true)

  /** `{ autoPlay: true, interval: 4000, pauseOnHover: true, ...config }` */
  function WithDefaults(o: Overrides): (c: Config)
    ensures o == Overrides(None, None, None) ==> c == DefaultConfig
    ensures o.autoPlay.Some? ==> c.autoPlay == o.autoPlay.value
    ensures o.interval.Some? ==> c.interval == o.interval.value
    ensures o.pauseOnHover.Some? ==> c.pauseOnHover == o.pauseOnHover.value
    ensures o.autoPlay.None? ==> c.autoPlay == DefaultConfig.autoPlay
    ensures o.interval.None? ==> c.interval == DefaultConfig.interval
    ensures o.pauseOnHover.None? ==> c.pauseOnHover == DefaultConfig.pauseOnHover
  {
    Config(
      match o.autoPlay case Some(b) => b case None => DefaultConfig.autoPlay,
      match o.interval case Some(n) => n case None => DefaultConfig.interval,
      match o.pauseOnHover case Some(b) => b case None => DefaultConfig.pauseOnHover)
  }

  /** The play/pause button's label: a pause sign while playing, a play sign while paused. */
  datatype Glyph = PauseGlyph | PlayGlyph

  /** What `update()` last wrote to the page: the strip is at `translateX(-shift%)`. */
  datatype Frame = Frame(shift: int, glyph: Glyph)

  datatype State = State(
    total: nat,               // slides.length, fixed at construction
    config: Config,
    index: int,               // currentIndex
    playing: bool,            // isPlaying
    intervalId: Option<nat>,  // intervalId; null is None
    live: set<nat>,           // handles of this slider's timers the browser still runs
    nextHandle: nat,          // the handle the browser's next setInterval returns
    startX: int,              // touchStartX; 0 means unset
    endX: int,                // touchEndX; 0 means unset
    dragging: bool,           // addDrag's isDragging
    frame: Option<Frame>)     // None until the first update()

  /** Horizontal distance a gesture must exceed to count as a swipe. */
  const Threshold := 50

  const ArrowLeft := "ArrowLeft"    // compared with KeyboardEvent.key
  const ArrowRight := "ArrowRight"  // compared with KeyboardEvent.key
  const Space := "Space"            // compared with KeyboardEvent.code

  function GlyphFor(playing: bool): Glyph
  {
    if playing then PauseGlyph else PlayGlyph
  }

  /** Every live timer is the one `intervalId` names; handles are positive (truthy) and never reused. */
  predicate TimersTracked(s: State)
  {
    s.nextHandle > 0 &&
    match s.intervalId
    case None => s.live == {}
    case Some(h) => s.live <= {h} && 0 < h < s.nextHandle
  }

  /** The invariant of the controller, except for what the page shows. */
  predicate ValidCore(s: State)
  {
    s.total > 0 && 0 <= s.index < s.total && TimersTracked(s)
  }

  /** The controller's invariant: index in range, timers tracked, and the strip, once drawn, shows the current slide. */
  predicate Valid(s: State)
  {
    ValidCore(s) && (s.frame.Some? ==> s.frame.value.shift == s.index * 100)
  }

  /** A repeating timer of this slider is running. */
  predicate TimerLive(s: State)
  {
    s.live != {}
  }

  /** A timer runs exactly when it should: the state `init()` and every re-arm leave. */
  predicate TimerSettled(s: State)
  {
    TimerLive(s) <==> s.playing && s.config.autoPlay
  }

  /** The state the constructor leaves: first slide, playing, no timer, no gesture, nothing drawn. */
  function Initial(total: nat, config: Config): (s: State)
    requires total > 0
    ensures Valid(s) && !TimerLive(s) && s.intervalId == None
    ensures s.total == total && s.config == config
    ensures s.index == 0 && s.playing
    ensures s.startX == 0 && s.endX == 0 && !s.dragging && s.frame == None
  {
    State(total, config, 0, true, None, {}, 1, 0, 0, false, None)
  }

  /** `update()`: draw the current slide and the glyph for the play flag; nothing else changes. */
  function Render(s: State): (r: State)
    ensures r.frame == Some(Frame(s.index * 100, GlyphFor(s.playing)))
    ensures r.(frame := s.frame) == s
    ensures ValidCore(s) ==> Valid(r)
  {
    s.(frame := Some(Frame(s.index * 100, GlyphFor(s.playing))))
  }

  /** `goTo(index)`: any integer is accepted and wrapped into the slide range, then drawn. */
  function GoTo(s: State, index: int): (r: State)
    requires Valid(s)
    ensures Valid(r)
    ensures r.index == index % s.total
    ensures r == Render(s.(index := r.index))
  {
    Render(s.(index := Wrap(index, s.total)))
  }

  /** The index after `i` among `n` slides, as a modulus. */
  lemma SuccessorWraps(i: int, n: int)
    requires 0 <= i < n
    ensures (i + 1) % n == if i == n - 1 then 0 else i + 1
  {
    if i == n - 1 {
      ModUnique(i + 1, n, 1, 0);
    } else {
      ModUnique(i + 1, n, 0, i + 1);
    }
  }

  /** The index before `i` among `n` slides, as a modulus. */
  lemma PredecessorWraps(i: int, n: int)
    requires 0 <= i < n
    ensures (i - 1) % n == if i == 0 then n - 1 else i - 1
  {
    if i == 0 {
      ModUnique(-1, n, -1, n - 1);
    } else {
      ModUnique(i - 1, n, 0, i - 1);
    }
  }

  /** `next()`: the following slide, the first after the last. */
  function Next(s: State): (r: State)
    requires Valid(s)
    ensures Valid(r)
    ensures r.index == if s.index == s.total - 1 then 0 else s.index + 1
    ensures r == Render(s.(index := r.index))
  {
    SuccessorWraps(s.index, s.total);
    GoTo(s, s.index + 1)
  }

  /** `prev()`: the preceding slide, the last before the first. */
  function Prev(s: State): (r: State)
    requires Valid(s)
    ensures Valid(r)
    ensures r.index == if s.index == 0 then s.total - 1 else s.index - 1
    ensures r == Render(s.(index := r.index))
  {
    PredecessorWraps(s.index, s.total);
    GoTo(s, s.index - 1)
  }

  /**
    `setAutoPlay()`: cancel the timer `intervalId` names, if any, then start a
    new one exactly when playing with autoplay on. `intervalId` keeps the
    cancelled handle otherwise, as the source never resets it.
   */
  function SetAutoPlay(s: State): (r: State)
    requires Valid(s)
    ensures Valid(r)
    ensures TimerLive(r) <==> s.playing && s.config.autoPlay
    ensures s.intervalId.Some? ==> s.intervalId.value !in r.live
    ensures s.playing && s.config.autoPlay ==> r.intervalId == Some(s.nextHandle) && r.live == {s.nextHandle}
    ensures !(s.playing && s.config.autoPlay) ==> r.intervalId == s.intervalId && r.nextHandle == s.nextHandle
    ensures r.(intervalId := s.intervalId, live := s.live, nextHandle := s.nextHandle) == s
  {
    var cleared := if s.intervalId.Some? then s.live - {s.intervalId.value} else s.live;
    if s.playing && s.config.autoPlay then
      s.(intervalId := Some(s.nextHandle), live := cleared + {s.nextHandle}, nextHandle := s.nextHandle + 1)
    else
      s.(live := cleared)
  }

  /** `togglePlay()`: flip the play flag, redraw, re-arm the timer. */
  function TogglePlay(s: State): (r: State)
    requires Valid(s)
    ensures Valid(r)
    ensures r.playing == !s.playing && r.index == s.index
    ensures r.frame == Some(Frame(s.index * 100, GlyphFor(r.playing)))
    ensures TimerLive(r) <==> r.playing && s.config.autoPlay
    ensures r.(playing := s.playing, frame := s.frame, intervalId := s.intervalId, live := s.live, nextHandle := s.nextHandle) == s
  {
    SetAutoPlay(Render(s.(playing := !s.playing)))
  }

  /**
    `handleTouch()`: a 0 coordinate means no gesture and nothing happens, not
    even a reset. Otherwise a drag right by more than the threshold goes back,
    a drag left by more than it goes forward, and the gesture is cleared.
   */
  function HandleTouch(s: State): (r: State)
    requires Valid(s)
    ensures Valid(r)
    ensures s.startX == 0 || s.endX == 0 ==> r == s
    ensures s.startX != 0 && s.endX != 0 ==>
      && r.startX == 0 && r.endX == 0
      && r.playing == s.playing && r.intervalId == s.intervalId && r.live == s.live
      && r.dragging == s.dragging
    ensures s.startX != 0 && s.endX != 0 && s.endX - s.startX > Threshold ==> r == Prev(s).(startX := 0, endX := 0)
    ensures s.startX != 0 && s.endX != 0 && s.endX - s.startX < -Threshold ==> r == Next(s).(startX := 0, endX := 0)
    ensures s.startX != 0 && s.endX != 0 && Abs(s.endX - s.startX) <= Threshold ==> r == s.(startX := 0, endX := 0)
  {
    if s.startX == 0 || s.endX == 0 then s
    else
      var delta := s.endX - s.startX;
      var moved := if Abs(delta) > Threshold then (if delta > 0 then Prev(s) else Next(s)) else s;
      moved.(startX := 0, endX := 0)
  }

  /** The document's keydown listener: three independent tests, on `key` and on `code`. */
  function KeyDown(s: State, key: string, code: string): (r: State)
    requires Valid(s)
    ensures Valid(r)
    ensures key != ArrowLeft && key != ArrowRight && code != Space ==> r == s
    ensures r.startX == s.startX && r.endX == s.endX && r.dragging == s.dragging
  {
    var afterLeft := if key == ArrowLeft then Prev(s) else s;
    var afterRight := if key == ArrowRight then Next(afterLeft) else afterLeft;
    if code == Space then TogglePlay(afterRight) else afterRight
  }

  /**
    The mouseenter listener, registered only with `pauseOnHover`: pause a
    playing carousel and re-arm (that is, stop) the timer. It does not redraw.
   */
  function MouseEnter(s: State): (r: State)
    requires Valid(s)
    ensures Valid(r)
    ensures s.config.pauseOnHover && s.playing ==> !r.playing && !TimerLive(r)
    ensures !(s.config.pauseOnHover && s.playing) ==> r == s
    ensures r.(playing := s.playing, intervalId := s.intervalId, live := s.live, nextHandle := s.nextHandle) == s
  {
    if s.config.pauseOnHover && s.playing then SetAutoPlay(s.(playing := false)) else s
  }

  /**
    The mouseleave listener, registered only with `pauseOnHover`: resume a
    paused carousel when autoplay is on, whoever paused it. It does not redraw.
   */
  function MouseLeave(s: State): (r: State)
    requires Valid(s)
    ensures Valid(r)
    ensures s.config.pauseOnHover && !s.playing && s.config.autoPlay ==> r.playing && TimerLive(r)
    ensures !(s.config.pauseOnHover && !s.playing && s.config.autoPlay) ==> r == s
    ensures r.(playing := s.playing, intervalId := s.intervalId, live := s.live, nextHandle := s.nextHandle) == s
  {
    if s.config.pauseOnHover && !s.playing && s.config.autoPlay then SetAutoPlay(s.(playing := true)) else s
  }

  /** `init()` without the listener registration: draw, then arm the timer if autoplay is on. */
  function Init(s: State): (r: State)
    requires Valid(s)
    ensures Valid(r)
    ensures r.index == s.index && r.playing == s.playing
    ensures r.frame == Some(Frame(s.index * 100, GlyphFor(s.playing)))
    ensures s.config.autoPlay ==> (TimerLive(r) <==> s.playing)
    ensures !s.config.autoPlay ==> r.live == s.live
    ensures !TimerLive(s) ==> TimerSettled(r)
    ensures r.(frame := s.frame, intervalId := s.intervalId, live := s.live, nextHandle := s.nextHandle) == s
  {
    var drawn := Render(s);
    if s.config.autoPlay then SetAutoPlay(drawn) else drawn
  }

  /** addDrag's mouseup listener: resolve the gesture only while a drag is in progress, then end it. */
  function DragMouseUp(s: State): (r: State)
    requires Valid(s)
    ensures Valid(r)
    ensures !r.dragging
    ensures s.dragging ==> r == HandleTouch(s).(dragging := false)
    ensures !s.dragging ==> r == s
  {
    if s.dragging then HandleTouch(s).(dragging := false) else s
  }

  // ---------------------------------------------------------------------------
  // Properties relating several calls
  // ---------------------------------------------------------------------------

  /** A controller never has more than one live timer. */
  lemma AtMostOneTimer(s: State)
    requires Valid(s)
    ensures |s.live| <= 1
  {
    if s.intervalId.Some? {
      var h := s.intervalId.value;
      assert s.live == {} || s.live == {h};
    }
  }

  /** `next()` then `prev()` returns to the same slide, and changes nothing but the drawing. */
  lemma NextThenPrev(s: State)
    requires Valid(s)
    ensures Prev(Next(s)) == Render(s)
  {
  }

  /** `prev()` then `next()` returns to the same slide, and changes nothing but the drawing. */
  lemma PrevThenNext(s: State)
    requires Valid(s)
    ensures Next(Prev(s)) == Render(s)
  {
  }

  /** Two toggles restore the play flag, the glyph for it, and the timer's liveness. */
  lemma TogglePlayTwice(s: State)
    requires Valid(s)
    ensures TogglePlay(TogglePlay(s)).playing == s.playing
    ensures TogglePlay(TogglePlay(s)).index == s.index
    ensures TogglePlay(TogglePlay(s)).frame == Some(Frame(s.index * 100, GlyphFor(s.playing)))
    ensures TimerLive(TogglePlay(TogglePlay(s))) == TimerLive(SetAutoPlay(s))
    ensures TimerSettled(s) ==> TimerLive(TogglePlay(TogglePlay(s))) == TimerLive(s)
  {
  }

  /** Re-arming again leaves exactly the same running timers' liveness and the rest of the state alone. */
  lemma SetAutoPlayIdempotent(s: State)
    requires Valid(s)
    ensures TimerLive(SetAutoPlay(SetAutoPlay(s))) == TimerLive(SetAutoPlay(s))
    ensures |SetAutoPlay(SetAutoPlay(s)).live| == |SetAutoPlay(s).live|
    ensures SetAutoPlay(SetAutoPlay(s)).(intervalId := s.intervalId, live := s.live, nextHandle := s.nextHandle) == s
  {
  }

  /** A resolved gesture is cleared, so resolving again right away does nothing. */
  lemma HandleTouchTwice(s: State)
    requires Valid(s)
    ensures HandleTouch(HandleTouch(s)) == HandleTouch(s)
  {
  }

  /** On a page with the drag extension both mouseup listeners run; the carousel still moves at most once. */
  lemma MouseUpNavigatesOnce(s: State)
    requires Valid(s)
    ensures DragMouseUp(HandleTouch(s)).index == HandleTouch(s).index
    ensures DragMouseUp(HandleTouch(s)).(dragging := s.dragging) == HandleTouch(s)
  {
  }

  /** Touch at 100, move to 30: a leftward swipe of 70 advances one slide and clears the gesture. */
  lemma SwipeLeftAdvances(s: State)
    requires Valid(s)
    ensures HandleTouch(s.(startX := 100, endX := 30)).index == Next(s).index
    ensures HandleTouch(s.(startX := 100, endX := 30)).startX == 0
    ensures HandleTouch(s.(startX := 100, endX := 30)).endX == 0
  {
  }

  /** Touch at 100, move to 140: a drag of 40 does not navigate. */
  lemma ShortDragStays(s: State)
    requires Valid(s)
    ensures HandleTouch(s.(startX := 100, endX := 140)).index == s.index
  {
  }

  /** The threshold is strict: a drag of exactly 50 in either direction does not navigate. */
  lemma ThresholdIsStrict(s: State, x: int)
    requires Valid(s)
    ensures HandleTouch(s.(startX := x, endX := x + 50)).index == s.index
    ensures HandleTouch(s.(startX := x, endX := x - 50)).index == s.index
  {
  }

  /** A gesture that started at coordinate 0 is treated as unset and left in place. */
  lemma ZeroStartIsIgnored(s: State, x: int)
    requires Valid(s)
    ensures HandleTouch(s.(startX := 0, endX := x)) == s.(startX := 0, endX := x)
  {
  }

  /** ArrowLeft is `prev()` and ArrowRight is `next()` when the key is not also Space. */
  lemma ArrowKeysNavigate(s: State, code: string)
    requires Valid(s) && code != Space
    ensures KeyDown(s, ArrowLeft, code) == Prev(s)
    ensures KeyDown(s, ArrowRight, code) == Next(s)
  {
  }

  /** Space is `togglePlay()`. */
  lemma SpaceToggles(s: State, key: string)
    requires Valid(s) && key != ArrowLeft && key != ArrowRight
    ensures KeyDown(s, key, Space) == TogglePlay(s)
  {
  }

  /** Hover cannot tell a user's pause from its own: leaving resumes a carousel the user paused. */
  lemma LeavingOverridesUserPause(s: State)
    requires Valid(s) && s.playing && s.config.autoPlay && s.config.pauseOnHover
    ensures MouseLeave(TogglePlay(s)).playing
    ensures TimerLive(MouseLeave(TogglePlay(s)))
  {
  }

  /** Hovering pauses without redrawing, so the button keeps showing the pause glyph while paused. */
  lemma HoverPauseKeepsGlyph(s: State)
    requires Valid(s) && s.playing && s.config.pauseOnHover
    ensures !MouseEnter(Render(s)).playing
    ensures MouseEnter(Render(s)).frame == Some(Frame(s.index * 100, PauseGlyph))
  {
  }
}
