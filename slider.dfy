/**
  The `Slider` object of slider.js with the drag flag `EnhancedSlider.addDrag`
  adds. Its fields are the source's own; the browser's timer table (which
  handles still run) and the last drawing are fields too, since the methods
  change them as effects. Each method is proved to take the object from
  `old(Model())` to the state the matching function of `Carousel` gives.
 */
module SliderWidget {
  import opened JsMath
  import Carousel

  class Slider {
    const total: nat                  // slides.length
    const config: Carousel.Config
    var currentIndex: int
    var isPlaying: bool
    var intervalId: Carousel.Option<nat>
    var touchStartX: int
    var touchEndX: int
    var isDragging: bool
    var liveTimers: set<nat>          // the browser's running intervals for this slider
    var nextHandle: nat               // what the browser's next setInterval returns
    var frame: Carousel.Option<Carousel.Frame>  // what update() last drew

    /** The object's state as a value. */
    function Model(): Carousel.State
      reads this
    {
      Carousel.State(total, config, currentIndex, isPlaying, intervalId, liveTimers, nextHandle,
                     touchStartX, touchEndX, isDragging, frame)
    }

    ghost predicate Valid()
      reads this
    {
      Carousel.Valid(Model())
    }

    /** `new Slider(element, config)`: the element is represented by its slide count. */
    constructor (slideCount: nat, overrides: Carousel.Overrides)
      requires slideCount > 0
      ensures Valid()
      ensures Model() == Carousel.Initial(slideCount, Carousel.WithDefaults(overrides))
    {
      total, config := slideCount, Carousel.WithDefaults(overrides);
      currentIndex, isPlaying := 0, true;
      intervalId := Carousel.None;
      touchStartX, touchEndX := 0, 0;
      isDragging := false;
      liveTimers, nextHandle := {}, 1;
      frame := Carousel.None;
    }

    /** `update()`: draw the strip at the current slide and the glyph for the play flag. */
    method Update()
      modifies this
      ensures Model() == Carousel.Render(old(Model()))
    {
      frame := Carousel.Some(Carousel.Frame(currentIndex * 100, Carousel.GlyphFor(isPlaying)));
    }

    /** `init()` without registering listeners. */
    method Init()
      requires Valid()
      modifies this
      ensures Valid()
      ensures Model() == Carousel.Init(old(Model()))
    {
      Update();
      if config.autoPlay {
        SetAutoPlay();
      }
    }

    method GoTo(index: int)
      requires Valid()
      modifies this
      ensures Valid()
      ensures currentIndex == index % total
      ensures Model() == Carousel.GoTo(old(Model()), index)
    {
      currentIndex := Wrap(index, total);
      Update();
    }

    method Next()
      requires Valid()
      modifies this
      ensures Valid()
      ensures Model() == Carousel.Next(old(Model()))
    {
      GoTo(currentIndex + 1);
    }

    method Prev()
      requires Valid()
      modifies this
      ensures Valid()
      ensures Model() == Carousel.Prev(old(Model()))
    {
      GoTo(currentIndex - 1);
    }

    /** The browser's `clearInterval(h)`: the interval stops; an unknown handle is ignored. */
    method ClearInterval(h: nat)
      modifies this`liveTimers
      ensures liveTimers == old(liveTimers) - {h}
    {
      liveTimers := liveTimers - {h};
    }

    /** The browser's `setInterval`: a new running interval under a never-used handle. */
    method SetInterval() returns (h: nat)
      modifies this`liveTimers, this`nextHandle
      ensures h == old(nextHandle) && nextHandle == h + 1
      ensures liveTimers == old(liveTimers) + {h}
    {
      h := nextHandle;
      nextHandle := nextHandle + 1;
      liveTimers := liveTimers + {h};
    }

    method SetAutoPlay()
      requires Valid()
      modifies this
      ensures Valid()
      ensures Model() == Carousel.SetAutoPlay(old(Model()))
      ensures isPlaying && config.autoPlay ==> intervalId.Some? && liveTimers == {intervalId.value}
      ensures !(isPlaying && config.autoPlay) ==> liveTimers == {}
    {
      if intervalId.Some? {
        ClearInterval(intervalId.value);
      }
      if isPlaying && config.autoPlay {
        var h := SetInterval();
        intervalId := Carousel.Some(h);
      }
    }

    method TogglePlay()
      requires Valid()
      modifies this
      ensures Valid()
      ensures Model() == Carousel.TogglePlay(old(Model()))
    {
      isPlaying := !isPlaying;
      Update();
      SetAutoPlay();
    }

    /** A tick of the running interval calls `next()`. */
    method Tick()
      requires Valid() && liveTimers != {}
      modifies this
      ensures Valid()
      ensures Model() == Carousel.Next(old(Model()))
    {
      Next();
    }

    method HandleTouch()
      requires Valid()
      modifies this
      ensures Valid()
      ensures Model() == Carousel.HandleTouch(old(Model()))
    {
      if touchStartX == 0 || touchEndX == 0 {
        return;
      }
      var delta := touchEndX - touchStartX;
      if Abs(delta) > Carousel.Threshold {
        if delta > 0 {
          Prev();
        } else {
          Next();
        }
      }
      touchStartX, touchEndX := 0, 0;
    }

    /** The touchstart and mousedown listeners: record where the gesture began. */
    method GestureStart(x: int)
      requires Valid()
      modifies this`touchStartX
      ensures Valid()
      ensures Model() == old(Model()).(startX := x)
    {
      touchStartX := x;
    }

    /** The touchmove and mousemove listeners: record where the gesture is now. */
    method GestureMove(x: int)
      requires Valid()
      modifies this`touchEndX
      ensures Valid()
      ensures Model() == old(Model()).(endX := x)
    {
      touchEndX := x;
    }

    method KeyDown(key: string, code: string)
      requires Valid()
      modifies this
      ensures Valid()
      ensures Model() == Carousel.KeyDown(old(Model()), key, code)
    {
      if key == Carousel.ArrowLeft {
        Prev();
      }
      if key == Carousel.ArrowRight {
        Next();
      }
      if code == Carousel.Space {
        TogglePlay();
      }
    }

    method MouseEnter()
      requires Valid()
      modifies this
      ensures Valid()
      ensures Model() == Carousel.MouseEnter(old(Model()))
    {
      if config.pauseOnHover && isPlaying {
        isPlaying := false;
        SetAutoPlay();
      }
    }

    method MouseLeave()
      requires Valid()
      modifies this
      ensures Valid()
      ensures Model() == Carousel.MouseLeave(old(Model()))
    {
      if config.pauseOnHover && !isPlaying && config.autoPlay {
        isPlaying := true;
        SetAutoPlay();
      }
    }

    /** addDrag's mousedown listener. */
    method DragMouseDown(x: int)
      requires Valid()
      modifies this`isDragging, this`touchStartX
      ensures Valid()
      ensures Model() == old(Model()).(dragging := true, startX := x)
    {
      isDragging := true;
      touchStartX := x;
    }

    /** addDrag's mousemove listener: only a drag in progress moves the end point. */
    method DragMouseMove(x: int)
      requires Valid()
      modifies this`touchEndX
      ensures Valid()
      ensures Model() == if old(isDragging) then old(Model()).(endX := x) else old(Model())
    {
      if isDragging {
        touchEndX := x;
      }
    }

    method DragMouseUp()
      requires Valid()
      modifies this
      ensures Valid()
      ensures Model() == Carousel.DragMouseUp(old(Model()))
    {
      if isDragging {
        HandleTouch();
        isDragging := false;
      }
    }

    /** addDrag's mouseleave listener: leaving the slider ends any drag. */
    method DragMouseLeave()
      requires Valid()
      modifies this`isDragging
      ensures Valid()
      ensures Model() == old(Model()).(dragging := false)
    {
      isDragging := false;
    }
  }
}
