/** The two objects the event loop drives: the main window, which can be asked
    to redraw, and the renderer, an opaque GPU component. The renderer is
    modelled as an oracle: what `input` and `render` answer is any fixed
    function of everything the renderer has been told so far, and every call
    made on it is recorded, with its answer, in a call trace. */
module Collaborators {
  import opened Events

  /** One call made on the renderer, with what it answered. */
  datatype Call =
    | InputCall(event: WindowEvent, claimed: bool)
    | ResizeCall(size: PhysicalSize)
    | UpdateCall
    | RenderCall(result: RenderResult)

  /** The size the renderer is configured for after the calls `calls`:
      the argument of the latest resize, or the size it was created with. */
  function ConfiguredSize(initial: PhysicalSize, calls: seq<Call>): (size: PhysicalSize)
    ensures (forall i :: 0 <= i < |calls| ==> !calls[i].ResizeCall?) ==> size == initial
    ensures forall i :: 0 <= i < |calls| && calls[i].ResizeCall? ==>
      (forall j :: i < j < |calls| ==> !calls[j].ResizeCall?) ==> size == calls[i].size
  {
    if calls == [] then initial
    else match calls[|calls| - 1]
      case ResizeCall(s) => s
      case _ => ConfiguredSize(initial, calls[..|calls| - 1])
  }

  /** Calls that do not resize leave the configured size alone. */
  lemma {:induction false} ConfiguredSizeIgnores(initial: PhysicalSize, calls: seq<Call>, tail: seq<Call>)
    requires forall i :: 0 <= i < |tail| ==> !tail[i].ResizeCall?
    ensures ConfiguredSize(initial, calls + tail) == ConfiguredSize(initial, calls)
    decreases |tail|
  {
    if tail != [] {
      var front := tail[..|tail| - 1];
      assert (calls + tail)[..|calls + tail| - 1] == calls + front;
      ConfiguredSizeIgnores(initial, calls, front);
    } else {
      assert calls + tail == calls;
    }
  }

  /** A platform window: an identity and a count of redraw requests. */
  class Window {
    const id: WindowId
    var redrawRequests: nat

    constructor (id: WindowId)
      ensures this.id == id && redrawRequests == 0
    {
      this.id := id;
      redrawRequests := 0;
    }

    /** Asks the platform for a `RedrawRequested` event. */
    method RequestRedraw()
      modifies this
      ensures redrawRequests == old(redrawRequests) + 1
    {
      redrawRequests := redrawRequests + 1;
    }
  }

  /** The GPU renderer, seen from the event loop. */
  class Renderer {
    /** The size the renderer was created for (the window's inner size). */
    const initialSize: PhysicalSize
    /** Whether `input` claims an event, given the calls made so far. */
    const claims: (seq<Call>, WindowEvent) -> bool
    /** What `render` returns, given the calls made so far. */
    const outcome: seq<Call> -> RenderResult

    /** The size the presentation surface is configured for. */
    var size: PhysicalSize
    /** Every call made on the renderer, oldest first. */
    var calls: seq<Call>

    ghost predicate Valid()
      reads this
    {
      size == ConfiguredSize(initialSize, calls)
    }

    constructor (initialSize: PhysicalSize, claims: (seq<Call>, WindowEvent) -> bool,
                 outcome: seq<Call> -> RenderResult)
      ensures Valid() && calls == [] && size == initialSize
      ensures this.initialSize == initialSize && this.claims == claims && this.outcome == outcome
    {
      this.initialSize := initialSize;
      this.claims := claims;
      this.outcome := outcome;
      size := initialSize;
      calls := [];
    }

    /** Offers a window event; true means the renderer claims it. */
    method Input(event: WindowEvent) returns (claimed: bool)
      requires Valid()
      modifies this
      ensures Valid() && size == old(size)
      ensures claimed == claims(old(calls), event)
      ensures calls == old(calls) + [InputCall(event, claimed)]
    {
      claimed := claims(calls, event);
      calls := calls + [InputCall(event, claimed)];
      ConfiguredSizeIgnores(initialSize, old(calls), [InputCall(event, claimed)]);
    }

    /** Reconfigures the presentation surface for `newSize`. */
    method Resize(newSize: PhysicalSize)
      requires Valid()
      modifies this
      ensures Valid() && size == newSize
      ensures calls == old(calls) + [ResizeCall(newSize)]
    {
      size := newSize;
      calls := calls + [ResizeCall(newSize)];
    }

    /** Advances the renderer's own simulation by one tick. */
    method Update()
      requires Valid()
      modifies this
      ensures Valid() && size == old(size)
      ensures calls == old(calls) + [UpdateCall]
    {
      calls := calls + [UpdateCall];
      ConfiguredSizeIgnores(initialSize, old(calls), [UpdateCall]);
    }

    /** Draws and presents one frame. */
    method Render() returns (result: RenderResult)
      requires Valid()
      modifies this
      ensures Valid() && size == old(size)
      ensures result == outcome(old(calls))
      ensures calls == old(calls) + [RenderCall(result)]
    {
      result := outcome(calls);
      calls := calls + [RenderCall(result)];
      ConfiguredSizeIgnores(initialSize, old(calls), [RenderCall(result)]);
    }
  }
}
