/** The application's event loop: for every platform event it decides which
    calls to make on the renderer, whether to ask the main window for a
    redraw, and whether to tell the platform to exit.

    `Dispatch` is the specification of one event, `Deliver` and
    `RunUntilExit` of a stream of events; the class `Application` does the
    same work step by step on the window and renderer objects and is proved
    against them. */
module ApplicationLoop {
  import opened Events
  import opened Collaborators

  /** What the loop is set up with: the main window's identity and the
      renderer's initial size and answers. */
  datatype Setting = Setting(
    mainWindow: WindowId,
    initialSize: PhysicalSize,
    claims: (seq<Call>, WindowEvent) -> bool,
    outcome: seq<Call> -> RenderResult)

  /** The effect of one event: the new control flow, the renderer calls made
      (in order) and the number of redraw requests. */
  datatype Reaction = Reaction(controlFlow: ControlFlow, calls: seq<Call>, redraws: nat)

  /** The observable state of the loop: control flow, the renderer's call
      trace and the number of redraw requests made so far. It has the shape
      of a `Reaction` but another meaning: a `Reaction` holds only the calls
      and redraws of one event, a `LoopState` everything since the start, and
      `Next` adds the first to the second. */
  datatype LoopState = LoopState(controlFlow: ControlFlow, calls: seq<Call>, redraws: nat)

  /** Whether `e` is a window event for a window other than the main one. */
  predicate ForOtherWindow(setting: Setting, e: Event) {
    e.WindowEventOf? && e.windowId != setting.mainWindow
  }

  /** A press, not a release, of the Escape key. */
  predicate IsEscapePress(input: KeyInput) {
    input.state == Pressed && input.virtualKeycode == Some(Escape)
  }

  /** The window events that ask the application to quit. */
  predicate RequestsExit(payload: WindowEvent) {
    payload.CloseRequested? || (payload.KeyboardInput? && IsEscapePress(payload.input))
  }

  /** The loop's own handling of a main-window event the renderer did not claim. */
  function UnclaimedWindowEvent(payload: WindowEvent, cf: ControlFlow): (r: Reaction)
    ensures RequestsExit(payload) ==> r.controlFlow == Exit
    ensures !RequestsExit(payload) ==> r.controlFlow == cf
    ensures payload.Resized? ==> r.calls == [ResizeCall(payload.size)]
    ensures payload.ScaleFactorChanged? ==> r.calls == [ResizeCall(payload.newInnerSize)]
    ensures !payload.Resized? && !payload.ScaleFactorChanged? ==> r.calls == []
    ensures r.redraws == 0
  {
    match payload
    case CloseRequested => Reaction(Exit, [], 0)
    case KeyboardInput(KeyInput(_, Pressed, Some(Escape)), _) => Reaction(Exit, [], 0)
    case KeyboardInput(_, _) => Reaction(cf, [], 0)
    case Resized(size) => Reaction(cf, [ResizeCall(size)], 0)
    case ScaleFactorChanged(_, newInnerSize) => Reaction(cf, [ResizeCall(newInnerSize)], 0)
    case _ => Reaction(cf, [], 0)
  }

  /** What follows a frame whose rendering returned `result`, when the
      renderer is configured for `size`. */
  function AfterRender(result: RenderResult, cf: ControlFlow, size: PhysicalSize): (r: Reaction)
    ensures result.Ok? ==> r.calls == [] && r.controlFlow == cf
    ensures result == Err(Lost) ==> r.calls == [ResizeCall(size)] && r.controlFlow == cf
    ensures result == Err(OutOfMemory) ==> r.calls == [] && r.controlFlow == Exit
    ensures result == Err(Timeout) || result == Err(Outdated) ==> r.calls == [] && r.controlFlow == cf
    ensures r.redraws == 0
  {
    match result
    case Ok => Reaction(cf, [], 0)
    case Err(Lost) => Reaction(cf, [ResizeCall(size)], 0)
    case Err(OutOfMemory) => Reaction(Exit, [], 0)
    case Err(_) => Reaction(cf, [], 0)  // the error is logged; the frame is dropped
  }

  /** The event loop's reaction to one event `e`, given the control flow `cf`,
      the renderer's configured `size` and the calls made on it before. */
  function Dispatch(setting: Setting, e: Event, cf: ControlFlow, size: PhysicalSize, history: seq<Call>): (r: Reaction)
    // control flow only ever becomes Exit
    ensures r.controlFlow == cf || r.controlFlow == Exit
    // an event for another window is ignored entirely
    ensures e.WindowEventOf? && e.windowId != setting.mainWindow ==> r == Reaction(cf, [], 0)
    // a main-window event is first offered to the renderer
    ensures e.WindowEventOf? && e.windowId == setting.mainWindow ==>
      |r.calls| >= 1 && r.calls[0] == InputCall(e.event, setting.claims(history, e.event)) && r.redraws == 0
    // a claimed event gets no further handling
    ensures e.WindowEventOf? && e.windowId == setting.mainWindow && setting.claims(history, e.event) ==>
      r.calls == [InputCall(e.event, true)] && r.controlFlow == cf
    // an unclaimed one is handled by the loop itself
    ensures e.WindowEventOf? && e.windowId == setting.mainWindow && !setting.claims(history, e.event) ==>
      var u := UnclaimedWindowEvent(e.event, cf);
      r.calls == [InputCall(e.event, false)] + u.calls && r.controlFlow == u.controlFlow
    // a redraw updates, renders, then reacts to the render's result, whatever the window
    ensures e.RedrawRequested? ==>
      var result := setting.outcome(history + [UpdateCall]);
      var a := AfterRender(result, cf, size);
      r.calls == [UpdateCall, RenderCall(result)] + a.calls && r.controlFlow == a.controlFlow && r.redraws == 0
    // the idle signal requests exactly one redraw and calls nothing
    ensures e.MainEventsCleared? ==> r == Reaction(cf, [], 1)
    // every other event is a no-op
    ensures !e.WindowEventOf? && !e.RedrawRequested? && !e.MainEventsCleared? ==> r == Reaction(cf, [], 0)
  {
    match e
    case WindowEventOf(windowId, payload) =>
      if windowId == setting.mainWindow then
        var claimed := setting.claims(history, payload);
        if claimed then Reaction(cf, [InputCall(payload, true)], 0)
        else
          var u := UnclaimedWindowEvent(payload, cf);
          Reaction(u.controlFlow, [InputCall(payload, false)] + u.calls, 0)
      else Reaction(cf, [], 0)
    case RedrawRequested(_) =>
      var result := setting.outcome(history + [UpdateCall]);
      var a := AfterRender(result, cf, size);
      Reaction(a.controlFlow, [UpdateCall, RenderCall(result)] + a.calls, 0)
    case MainEventsCleared => Reaction(cf, [], 1)
    case _ => Reaction(cf, [], 0)
  }

  /** The loop state after one event: the renderer is asked with its size as
      configured by the calls so far, and its trace only grows. */
  function Next(setting: Setting, s: LoopState, e: Event): (t: LoopState)
    ensures |s.calls| <= |t.calls| && t.calls[..|s.calls|] == s.calls
    ensures t.controlFlow == s.controlFlow || t.controlFlow == Exit
    ensures t.redraws == s.redraws + (if e.MainEventsCleared? then 1 else 0)
    ensures ForOtherWindow(setting, e) ==> t == s
  {
    var r := Dispatch(setting, e, s.controlFlow, ConfiguredSize(setting.initialSize, s.calls), s.calls);
    LoopState(r.controlFlow, s.calls + r.calls, s.redraws + r.redraws)
  }

  /** The loop state after every event of `events` has been dispatched. */
  function Deliver(setting: Setting, s: LoopState, events: seq<Event>): (t: LoopState)
    ensures |s.calls| <= |t.calls| && t.calls[..|s.calls|] == s.calls
    ensures s.redraws <= t.redraws
    decreases |events|
  {
    if events == [] then s
    else
      var n := Next(setting, s, events[0]);
      assert n.calls[..|s.calls|] == s.calls;
      Deliver(setting, n, events[1..])
  }

  /** The loop state after the platform has delivered `events` for as long as
      the control flow is not Exit (the platform stops delivering then). */
  function RunUntilExit(setting: Setting, s: LoopState, events: seq<Event>): (t: LoopState)
    ensures |s.calls| <= |t.calls| && t.calls[..|s.calls|] == s.calls
    ensures s.controlFlow == Exit ==> t == s
    decreases |events|
  {
    if events == [] || s.controlFlow == Exit then s
    else
      var n := Next(setting, s, events[0]);
      assert n.calls[..|s.calls|] == s.calls;
      RunUntilExit(setting, n, events[1..])
  }

  /** The application: the main window, the renderer, a registry of further
      windows (created empty and never used by the loop) and the control flow
      the loop hands back to the platform. */
  class Application {
    const mainWindow: Window
    const renderer: Renderer
    var windows: map<WindowId, Window>
    var controlFlow: ControlFlow

    ghost predicate Valid()
      reads this, renderer
    {
      renderer.Valid()
    }

    ghost function Config(): Setting {
      Setting(mainWindow.id, renderer.initialSize, renderer.claims, renderer.outcome)
    }

    ghost function State(): LoopState
      reads this, renderer, mainWindow
    {
      LoopState(controlFlow, renderer.calls, mainWindow.redrawRequests)
    }

    /** Builds the application around a fresh window and renderer; the platform
        starts the loop in Poll mode. */
    constructor Create(mainWindow: Window, renderer: Renderer)
      requires renderer.Valid()
      ensures Valid() && this.mainWindow == mainWindow && this.renderer == renderer
      ensures windows == map[] && controlFlow == Poll
    {
      this.mainWindow := mainWindow;
      this.renderer := renderer;
      windows := map[];
      controlFlow := Poll;
    }

    /** Handles one event, as the closure given to the platform's loop does. */
    method Step(e: Event)
      requires Valid()
      modifies this`controlFlow, renderer, mainWindow
      ensures Valid() && windows == old(windows)
      ensures State() == Next(Config(), old(State()), e)
    {
      match e
      case WindowEventOf(windowId, payload) =>
        if windowId == mainWindow.id {
          HandleWindowEvent(payload);
        }
      case RedrawRequested(_) =>
        Redraw();
      case MainEventsCleared =>
        mainWindow.RequestRedraw();
      case _ =>
    }

    /** A main-window event: offered to the renderer first, handled by the
        loop only when the renderer does not claim it. */
    method HandleWindowEvent(payload: WindowEvent)
      requires Valid()
      modifies this`controlFlow, renderer
      ensures Valid()
      ensures var r := Dispatch(Config(), WindowEventOf(mainWindow.id, payload),
                                old(controlFlow), old(renderer.size), old(renderer.calls));
        controlFlow == r.controlFlow && renderer.calls == old(renderer.calls) + r.calls
    {
      var claimed := renderer.Input(payload);
      if !claimed {
        HandleUnclaimed(payload);
      }
    }

    /** The loop's own handling of a main-window event the renderer did not
        claim: quit on a close request or an Escape press, pass a new size on
        to the renderer. */
    method HandleUnclaimed(payload: WindowEvent)
      requires Valid()
      modifies this`controlFlow, renderer
      ensures Valid()
      ensures var u := UnclaimedWindowEvent(payload, old(controlFlow));
        controlFlow == u.controlFlow && renderer.calls == old(renderer.calls) + u.calls
    {
      match payload
      case CloseRequested =>
        controlFlow := Exit;
      case KeyboardInput(KeyInput(_, Pressed, Some(Escape)), _) =>
        controlFlow := Exit;
      case KeyboardInput(_, _) =>
      case Resized(size) =>
        renderer.Resize(size);
      case ScaleFactorChanged(_, newInnerSize) =>
        renderer.Resize(newInnerSize);
      case _ =>
    }

    /** A redraw: advance the renderer, render a frame and sort its outcome. */
    method Redraw()
      requires Valid()
      modifies this`controlFlow, renderer
      ensures Valid()
      ensures var r := Dispatch(Config(), RedrawRequested(mainWindow.id),
                                old(controlFlow), old(renderer.size), old(renderer.calls));
        controlFlow == r.controlFlow && renderer.calls == old(renderer.calls) + r.calls
    {
      renderer.Update();
      var result := renderer.Render();
      match result
      case Ok =>
      case Err(Lost) =>
        renderer.Resize(renderer.size);
      case Err(OutOfMemory) =>
        controlFlow := Exit;
      case Err(_) =>  // logged; the frame is dropped
    }

    /** Runs the loop over the events the platform delivers, which it stops
        doing once the control flow is Exit. */
    method Run(events: seq<Event>)
      requires Valid()
      modifies this`controlFlow, renderer, mainWindow
      ensures Valid() && windows == old(windows)
      ensures State() == RunUntilExit(Config(), old(State()), events)
    {
      var i := 0;
      while i < |events| && controlFlow != Exit
        invariant 0 <= i <= |events|
        invariant Valid() && windows == old(windows)
        invariant RunUntilExit(Config(), State(), events[i..]) == RunUntilExit(Config(), old(State()), events)
      {
        Step(events[i]);
        assert events[i..][1..] == events[i + 1..];
        i := i + 1;
      }
    }
  }
}
