# Event loop of the peep application, in Dafny

The application owns one platform window and a GPU renderer. The platform
(winit) calls one closure for every event it pumps. For each event the
closure decides three things:

- which calls to make on the renderer (`input`, `resize`, `update`, `render`);
- whether to ask the main window for a redraw;
- whether to set the control flow to `Exit`.

This project models that closure and the application it runs in.

- `events.dfy` (module `Events`): the event, window-event, keyboard,
  size, control-flow and render-outcome types the closure inspects.
- `collaborators.dfy` (module `Collaborators`): the main window (a class
  counting redraw requests) and the renderer. The renderer is a class with
  a `size` field and a trace of every call made on it, each with its
  answer. What `input` and `render` answer is a fixed function of the calls
  made before, so any deterministic renderer is covered.
- `application.dfy` (module `ApplicationLoop`): `Dispatch`, the
  specification of one event; `Deliver` and `RunUntilExit`, the
  specification of a stream of events. It also holds the class
  `Application`, whose `Step` does the work in place on the window and the
  renderer, and whose `Run` loops over the events until the control flow
  is `Exit`. Both are proved against those functions.
- `traces.dfy` (module `TraceProperties`): what holds of whole runs, stated
  over the call trace, the control flow and the redraw count.

The control flow uses winit's four variants (`Poll`, `Wait`, `WaitUntil`,
`Exit`). The closure only ever assigns `Exit`; every other value is left as
it was.

## Model

| member | source | states |
|---|---|---|
| `Collaborators.ConfiguredSize` | src/application.rs:70 | the size the renderer holds (`renderer.size`) is the argument of the latest `resize`, or the size it was created with if there was none |
| `Collaborators.Window.constructor` | src/application.rs:20 | the main window has a fixed identity and has requested no redraw yet |
| `Collaborators.Window.RequestRedraw` | src/application.rs:76 | a redraw request is recorded, exactly one per call |
| `Collaborators.Renderer.constructor` | src/application.rs:24 | the renderer starts at the initial size it is given, with an empty call trace and its answer functions fixed |
| `Collaborators.Renderer.Input` | src/application.rs:44 | `input` returns the renderer's claim for the event, records it, and leaves the size alone |
| `Collaborators.Renderer.Resize` | src/application.rs:56 | `resize` records the call and the renderer's size becomes the new size |
| `Collaborators.Renderer.Update` | src/application.rs:66 | `update` is recorded and changes no size |
| `Collaborators.Renderer.Render` | src/application.rs:68 | `render` returns the renderer's outcome, records it, and changes no size |
| `ApplicationLoop.UnclaimedWindowEvent` | src/application.rs:45-62 | close, and a press (not release) of Escape, set `Exit`; any other key, a missing key code or any other event leaves control flow as it was; `Resized(s)` and `ScaleFactorChanged` with inner size `s` each make exactly one `resize(s)` with `s` unaltered (zero sizes included); nothing else calls the renderer |
| `ApplicationLoop.AfterRender` | src/application.rs:68-73 | `Ok` does nothing more; `Lost` makes one `resize` with the renderer's own size and keeps control flow; `OutOfMemory` sets `Exit` with no call; `Timeout` and `Outdated` are dropped with no call and no change of control flow |
| `ApplicationLoop.Dispatch` | src/application.rs:39-79 | control flow only ever becomes `Exit`; an event for another window makes no call at all (not even `input`) and changes nothing; a main-window event is offered to `input` first, and if claimed nothing else happens; if unclaimed the loop's own handling follows; `RedrawRequested` for any window calls `update` then `render`, then reacts to the result; `MainEventsCleared` requests exactly one redraw and calls nothing; every other event is a no-op |
| `ApplicationLoop.Next` | src/application.rs:39-79 | one event: the renderer is consulted with the size set by its calls so far; the trace only grows; control flow stays or becomes `Exit`; only `MainEventsCleared` adds a redraw request; an event for another window changes nothing |
| `ApplicationLoop.Deliver` | src/application.rs:39 | the closure run on every event only appends to the renderer's trace and never lowers the redraw count |
| `ApplicationLoop.RunUntilExit` | src/application.rs:39 | the platform's loop only appends to the trace, and delivers nothing once control flow is `Exit` |
| `ApplicationLoop.Application.Create` | src/application.rs:18-32 | the application owns the given window and renderer, its window registry is empty, and the loop starts in `Poll` |
| `ApplicationLoop.Application.Step` | src/application.rs:39-79 | handling one event in place leaves control flow, renderer trace and redraw count exactly as `Dispatch` prescribes; the window registry is untouched |
| `ApplicationLoop.Application.HandleWindowEvent` | src/application.rs:44-63 | for a main-window event, in place: `input` first, the loop's own handling only when unclaimed, as `Dispatch` prescribes |
| `ApplicationLoop.Application.HandleUnclaimed` | src/application.rs:45-62 | in place, for an unclaimed main-window event: control flow and renderer trace change exactly as `UnclaimedWindowEvent` prescribes (quit on close or Escape press, one `resize` with the new size) |
| `ApplicationLoop.Application.Redraw` | src/application.rs:65-73 | in place: `update`, `render`, then the three-way sorting of the result, as `Dispatch` prescribes |
| `ApplicationLoop.Application.Run` | src/application.rs:34-79 | running the loop over a stream of events leaves the state `RunUntilExit` prescribes; the window registry is untouched |
| `TraceProperties.ExitIsFinal` | src/application.rs:45-73 | once control flow is `Exit` it stays `Exit` whatever events follow |
| `TraceProperties.OtherWindowsIgnored` | src/application.rs:44 | any number of events for other windows leave control flow, trace and redraw count unchanged |
| `TraceProperties.RedrawPerIdleSignal` | src/application.rs:75-77 | the redraw count grows by exactly the number of `MainEventsCleared` events |
| `TraceProperties.UpdatesAndRendersStayPaired` | src/application.rs:65-68 | in the trace every `render` comes right after an `update` and every `update` right before a `render` |
| `TraceProperties.ResizePropertiesHold` | src/application.rs:55-70 | every lost surface is followed at once by one `resize` to the renderer's configured size; every `resize` comes right after an unclaimed `Resized`/`ScaleFactorChanged` carrying the same size, or after a lost surface |
| `TraceProperties.ExitExactlyOnCause` | src/application.rs:44-71 | the loop ends in `Exit` if and only if it started there or the trace shows an unclaimed close request, an unclaimed Escape press or an out-of-memory render |
| `TraceProperties.RunIsDeliveredPrefix` | src/application.rs:39 | running until exit is delivering the events up to the first point where control flow is `Exit`, and no further |
| `TraceProperties.OutOfMemoryEndsRun` | src/application.rs:71 | an out-of-memory render is the last call the renderer receives, and the run ends in `Exit` |
| `TraceProperties.CloseRequestEndsRun` | src/application.rs:46 | after an unclaimed close request the renderer sees nothing more and control flow is `Exit` |
| `TraceProperties.ZeroSizeResizeThenRedraw` | src/application.rs:55-73 | a zero-sized resize is passed on as it is; a following redraw updates, renders and reacts to whatever the render returns, with the renderer now at the zero size |
| `TraceProperties.SurfaceLostScenario` | src/application.rs:65-70 | a redraw whose render reports a lost surface ends with one `resize` to the renderer's own size and leaves control flow as it was |

## Left out

- Creating the event loop and the main window (src/application.rs:19-20): platform code. The window is an opaque identity given to `Application.Create`; a failure to build it (the `unwrap`) is not modelled.
- `Renderer::new` (src/application.rs:24), which is asynchronous, and everything in the renderer and texture modules. The renderer and texture modules are not part of this model. The renderer is an oracle whose answers are fixed functions of its call history. Timing-dependent behaviour is therefore not covered.
- The renderer's own behaviour is assumed, since its source is not part of this model: `resize` stores its argument as the renderer's `size`, and `input`, `update` and `render` leave `size` unchanged. The renderer's initial size is whatever its constructor is given; the model does not tie it to the window's inner size, since `Window` carries no size.
- Logging of other render errors (src/application.rs:72): output only. It changes no state.
- `main.rs`: logger set-up and `block_on` are start-up glue.
- That no event reaches the closure once control flow is `Exit` is an assumption about the event source (winit), not something this code ensures. `RunUntilExit`, `Application.Run`, `OutOfMemoryEndsRun` and `CloseRequestEndsRun` rely on it. Under `Deliver`, which feeds every event, a redraw after an unclaimed close still calls `update` and `render`. The trace lemmas over `Deliver` do not rely on it.
- The `control_flow` value lives in winit's loop; here it is a field of `Application`. Its initial value `Poll` is winit's default.
- Event fields that the closure never reads: device ids, key modifiers, the start cause of `NewEvents`, and the content of device events. Window-event kinds it never inspects are one opaque variant. The scale factor is a `real` standing in for the `f64` it is never used as.
- The `windows` registry is modelled as a map that `Create` leaves empty and nothing changes. No insertion or removal exists in the code.
