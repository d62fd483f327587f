/** Value types of the windowing library (winit) and the GPU library (wgpu)
    that the application's event loop inspects. Only the parts the loop
    looks at are modelled; everything else is carried as opaque data. */
module Events {

  datatype Option<+T> = None | Some(value: T)

  /** An unsigned 32-bit integer, the component type of a physical size. */
  type U32 = x: int | 0 <= x < 0x1_0000_0000

  /** Opaque, stable identity of a platform window. */
  datatype WindowId = WindowId(raw: nat)

  /** A size in physical pixels; zero width or height is a legal value. */
  datatype PhysicalSize = PhysicalSize(width: U32, height: U32)

  datatype ElementState = Pressed | Released

  /** The symbolic key of a keyboard event; the loop only tells Escape apart. */
  datatype VirtualKeyCode = Escape | OtherKey(code: nat)

  /** The key record carried by a keyboard event (modifiers are not modelled). */
  datatype KeyInput = KeyInput(scancode: U32, state: ElementState, virtualKeycode: Option<VirtualKeyCode>)

  /** The payload of a window-scoped event. Variants the loop does not inspect
      (cursor movement, focus, mouse buttons, ...) are one opaque variant. */
  datatype WindowEvent =
    | CloseRequested
    | KeyboardInput(input: KeyInput, isSynthetic: bool)
    | Resized(size: PhysicalSize)
    | ScaleFactorChanged(scaleFactor: real, newInnerSize: PhysicalSize)
    | OtherWindowEvent(kind: nat)

  /** One event of the platform's event stream. */
  datatype Event =
    | WindowEventOf(windowId: WindowId, event: WindowEvent)
    | NewEvents
    | DeviceEvent(kind: nat)
    | UserEvent
    | Suspended
    | Resumed
    | MainEventsCleared
    | RedrawRequested(target: WindowId)
    | RedrawEventsCleared
    | LoopDestroyed

  /** The directive the loop hands back to the platform after each event. */
  datatype ControlFlow = Poll | Wait | WaitUntil(instant: nat) | Exit

  /** Why presenting a frame can fail. */
  datatype SwapChainError = Timeout | Outdated | Lost | OutOfMemory

  /** The outcome of one frame. */
  datatype RenderResult = Ok | Err(error: SwapChainError)
}
