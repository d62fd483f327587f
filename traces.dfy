/** Properties of whole runs of the event loop, stated over the renderer's
    call trace, the control flow and the redraw count. `Deliver` feeds the
    loop every event (what the dispatch code itself guarantees, whatever the
    platform does); `RunUntilExit` stops at Exit, as the platform does. */
module TraceProperties {
  import opened Events
  import opened Collaborators
  import opened ApplicationLoop

  // ---------------------------------------------------------------------
  // Exit is final

  /** Control flow is only ever set to Exit, so Exit survives any events. */
  lemma {:induction false} ExitIsFinal(setting: Setting, s: LoopState, events: seq<Event>)
    requires s.controlFlow == Exit
    ensures Deliver(setting, s, events).controlFlow == Exit
    decreases |events|
  {
    if events != [] {
      ExitIsFinal(setting, Next(setting, s, events[0]), events[1..]);
    }
  }

  // ---------------------------------------------------------------------
  // Routing

  /** Events for windows other than the main window change nothing at all:
      no renderer call, no redraw request, no change of control flow. */
  lemma {:induction false} OtherWindowsIgnored(setting: Setting, s: LoopState, events: seq<Event>)
    requires forall i :: 0 <= i < |events| ==> ForOtherWindow(setting, events[i])
    ensures Deliver(setting, s, events) == s
    decreases |events|
  {
    if events != [] {
      assert ForOtherWindow(setting, events[0]);
      assert s.calls + [] == s.calls;
      OtherWindowsIgnored(setting, Next(setting, s, events[0]), events[1..]);
    }
  }

  // ---------------------------------------------------------------------
  // Redraw requests

  /** The number of idle signals among `events`. */
  function IdleSignals(events: seq<Event>): nat {
    if events == [] then 0
    else (if events[0].MainEventsCleared? then 1 else 0) + IdleSignals(events[1..])
  }

  /** Exactly one redraw is requested per idle signal, and no other event
      requests one. */
  lemma {:induction false} RedrawPerIdleSignal(setting: Setting, s: LoopState, events: seq<Event>)
    ensures Deliver(setting, s, events).redraws == s.redraws + IdleSignals(events)
    decreases |events|
  {
    if events != [] {
      RedrawPerIdleSignal(setting, Next(setting, s, events[0]), events[1..]);
    }
  }

  // ---------------------------------------------------------------------
  // Update and render come in pairs

  /** Every render is immediately preceded by an update, and every update is
      immediately followed by a render. */
  ghost predicate UpdatesAndRendersPaired(calls: seq<Call>) {
    (forall i :: 0 <= i < |calls| && calls[i].RenderCall? ==> 0 < i && calls[i - 1] == UpdateCall) &&
    (forall i :: 0 <= i < |calls| && calls[i] == UpdateCall ==> i + 1 < |calls| && calls[i + 1].RenderCall?)
  }

  lemma PairedConcat(a: seq<Call>, b: seq<Call>)
    requires UpdatesAndRendersPaired(a) && UpdatesAndRendersPaired(b)
    ensures UpdatesAndRendersPaired(a + b)
  {
    var c := a + b;
    forall i | 0 <= i < |c| && c[i].RenderCall?
      ensures 0 < i && c[i - 1] == UpdateCall
    {
      if i >= |a| { assert b[i - |a|] == c[i]; }
    }
    forall i | 0 <= i < |c| && c[i] == UpdateCall
      ensures i + 1 < |c| && c[i + 1].RenderCall?
    {
      if i >= |a| { assert b[i - |a|] == c[i]; }
    }
  }

  lemma DispatchPaired(setting: Setting, e: Event, cf: ControlFlow, size: PhysicalSize, history: seq<Call>)
    ensures UpdatesAndRendersPaired(Dispatch(setting, e, cf, size, history).calls)
  {
    var r := Dispatch(setting, e, cf, size, history);
    if e.RedrawRequested? {
      var result := setting.outcome(history + [UpdateCall]);
      var a := AfterRender(result, cf, size);
      assert forall i :: 0 <= i < |a.calls| ==> a.calls[i].ResizeCall?;
      assert r.calls == [UpdateCall, RenderCall(result)] + a.calls;
    } else if e.WindowEventOf? && e.windowId == setting.mainWindow {
      assert forall i :: 1 <= i < |r.calls| ==> r.calls[i].ResizeCall?;
    }
  }

  /** Whatever the events, updates and renders stay paired in the trace. */
  lemma {:induction false} UpdatesAndRendersStayPaired(setting: Setting, s: LoopState, events: seq<Event>)
    requires UpdatesAndRendersPaired(s.calls)
    ensures UpdatesAndRendersPaired(Deliver(setting, s, events).calls)
    decreases |events|
  {
    if events != [] {
      var e := events[0];
      DispatchPaired(setting, e, s.controlFlow, ConfiguredSize(setting.initialSize, s.calls), s.calls);
      PairedConcat(s.calls, Dispatch(setting, e, s.controlFlow, ConfiguredSize(setting.initialSize, s.calls), s.calls).calls);
      UpdatesAndRendersStayPaired(setting, Next(setting, s, e), events[1..]);
    }
  }

  // ---------------------------------------------------------------------
  // Surface recovery and the origin of every resize

  /** Every lost surface is immediately followed by one resize to the size the
      renderer was configured for at that moment. */
  ghost predicate LostSurfacesRecovered(initial: PhysicalSize, calls: seq<Call>) {
    forall i :: 0 <= i < |calls| && calls[i] == RenderCall(Err(Lost)) ==>
      i + 1 < |calls| && calls[i + 1] == ResizeCall(ConfiguredSize(initial, calls[..i]))
  }

  /** The call just before a resize to `size` explains it: an unclaimed window
      resize or scale-factor change carrying `size` itself, or a lost surface
      when `size` is the renderer's configured size `configured`. */
  predicate ExplainsResize(prev: Call, size: PhysicalSize, configured: PhysicalSize) {
    prev == InputCall(Resized(size), false)
    || (prev.InputCall? && !prev.claimed && prev.event.ScaleFactorChanged? && prev.event.newInnerSize == size)
    || (prev == RenderCall(Err(Lost)) && size == configured)
  }

  /** No resize happens without a reason, and its size is never altered. */
  ghost predicate ResizesExplained(initial: PhysicalSize, calls: seq<Call>) {
    forall i :: 0 <= i < |calls| && calls[i].ResizeCall? ==>
      0 < i && ExplainsResize(calls[i - 1], calls[i].size, ConfiguredSize(initial, calls[..i - 1]))
  }

  /** Within the calls of one event, a lost surface is followed by a resize
      to the configured size, and every resize is explained by the call
      before it. A lost surface only ever appears right after the update. */
  lemma DispatchResizes(setting: Setting, e: Event, cf: ControlFlow, size: PhysicalSize, history: seq<Call>)
    ensures var rc := Dispatch(setting, e, cf, size, history).calls;
      (forall j :: 0 <= j < |rc| && rc[j] == RenderCall(Err(Lost)) ==>
         j == 1 && |rc| == 3 && rc[0] == UpdateCall && rc[2] == ResizeCall(size)) &&
      (forall j :: 0 <= j < |rc| && rc[j].ResizeCall? ==>
         0 < j && ExplainsResize(rc[j - 1], rc[j].size, size) &&
         (rc[j - 1].RenderCall? ==> j == 2 && rc[0] == UpdateCall))
  {
    var rc := Dispatch(setting, e, cf, size, history).calls;
    if e.RedrawRequested? {
      var result := setting.outcome(history + [UpdateCall]);
      assert rc == [UpdateCall, RenderCall(result)] + AfterRender(result, cf, size).calls;
    }
  }

  /** One event keeps every lost surface recovered. */
  lemma NextKeepsLostSurfacesRecovered(setting: Setting, s: LoopState, e: Event)
    requires LostSurfacesRecovered(setting.initialSize, s.calls)
    ensures LostSurfacesRecovered(setting.initialSize, Next(setting, s, e).calls)
  {
    var init := setting.initialSize;
    var size := ConfiguredSize(init, s.calls);
    var rc := Dispatch(setting, e, s.controlFlow, size, s.calls).calls;
    var c := s.calls + rc;
    var m := |s.calls|;
    assert Next(setting, s, e).calls == c;
    DispatchResizes(setting, e, s.controlFlow, size, s.calls);
    forall i | 0 <= i < |c| && c[i] == RenderCall(Err(Lost))
      ensures i + 1 < |c| && c[i + 1] == ResizeCall(ConfiguredSize(init, c[..i]))
    {
      if i >= m {
        assert rc[i - m] == c[i];
        ConfiguredSizeIgnores(init, s.calls, [UpdateCall]);
        assert c[..i] == s.calls + [UpdateCall];
      } else {
        assert c[..i] == s.calls[..i];
        assert s.calls[i] == c[i];
      }
    }
  }

  /** Appending calls whose resizes are explained by the call before them,
      with a lost surface only right after an update, keeps every resize
      explained. */
  lemma ResizesExplainedAppend(init: PhysicalSize, calls: seq<Call>, rc: seq<Call>)
    requires ResizesExplained(init, calls)
    requires forall j :: 0 <= j < |rc| && rc[j].ResizeCall? ==>
      0 < j && ExplainsResize(rc[j - 1], rc[j].size, ConfiguredSize(init, calls)) &&
      (rc[j - 1].RenderCall? ==> j == 2 && rc[0] == UpdateCall)
    ensures ResizesExplained(init, calls + rc)
  {
    var c := calls + rc;
    var m := |calls|;
    forall i | 0 <= i < |c| && c[i].ResizeCall?
      ensures 0 < i && ExplainsResize(c[i - 1], c[i].size, ConfiguredSize(init, c[..i - 1]))
    {
      if i >= m {
        assert rc[i - m] == c[i];
        assert rc[i - m - 1] == c[i - 1];
        if c[i - 1].RenderCall? {
          ConfiguredSizeIgnores(init, calls, [UpdateCall]);
          assert c[..i - 1] == calls + [UpdateCall];
        }
      } else {
        assert c[..i - 1] == calls[..i - 1];
        assert calls[i] == c[i];
      }
    }
  }

  /** One event keeps every resize explained. */
  lemma NextKeepsResizesExplained(setting: Setting, s: LoopState, e: Event)
    requires ResizesExplained(setting.initialSize, s.calls)
    ensures ResizesExplained(setting.initialSize, Next(setting, s, e).calls)
  {
    var size := ConfiguredSize(setting.initialSize, s.calls);
    var rc := Dispatch(setting, e, s.controlFlow, size, s.calls).calls;
    DispatchResizes(setting, e, s.controlFlow, size, s.calls);
    ResizesExplainedAppend(setting.initialSize, s.calls, rc);
  }

  /** Whatever the events, every lost surface is recovered by resizing to
      the renderer's own size, and every resize has a reason. */
  lemma {:induction false} ResizePropertiesHold(setting: Setting, s: LoopState, events: seq<Event>)
    requires LostSurfacesRecovered(setting.initialSize, s.calls)
    requires ResizesExplained(setting.initialSize, s.calls)
    ensures LostSurfacesRecovered(setting.initialSize, Deliver(setting, s, events).calls)
    ensures ResizesExplained(setting.initialSize, Deliver(setting, s, events).calls)
    decreases |events|
  {
    if events != [] {
      NextKeepsLostSurfacesRecovered(setting, s, events[0]);
      NextKeepsResizesExplained(setting, s, events[0]);
      ResizePropertiesHold(setting, Next(setting, s, events[0]), events[1..]);
    }
  }

  // ---------------------------------------------------------------------
  // Why the loop exits

  /** A call whose answer makes the loop exit: an unclaimed close request or
      Escape press, or a render that ran out of memory. */
  predicate CausesExit(c: Call) {
    (c.InputCall? && !c.claimed && RequestsExit(c.event)) || c == RenderCall(Err(OutOfMemory))
  }

  ghost predicate HasExitCause(calls: seq<Call>, from: nat) {
    exists i :: from <= i < |calls| && CausesExit(calls[i])
  }

  /** Within the calls of one event: the control flow becomes Exit exactly
      when it was Exit already or one of those calls causes it. */
  lemma DispatchExitCause(setting: Setting, e: Event, cf: ControlFlow, size: PhysicalSize, history: seq<Call>)
    ensures var r := Dispatch(setting, e, cf, size, history);
      r.controlFlow == Exit <==> cf == Exit || HasExitCause(r.calls, 0)
  {
    var r := Dispatch(setting, e, cf, size, history);
    match e
    case WindowEventOf(windowId, payload) =>
      if windowId != setting.mainWindow {
        assert r.calls == [];
      } else if setting.claims(history, payload) {
        assert r.calls == [InputCall(payload, true)];
        assert !CausesExit(r.calls[0]);
      } else {
        var u := UnclaimedWindowEvent(payload, cf);
        assert r.calls == [InputCall(payload, false)] + u.calls;
        assert forall j :: 1 <= j < |r.calls| ==> r.calls[j].ResizeCall?;
        assert CausesExit(r.calls[0]) <==> RequestsExit(payload);
      }
    case RedrawRequested(_) =>
      var result := setting.outcome(history + [UpdateCall]);
      var a := AfterRender(result, cf, size);
      assert r.calls == [UpdateCall, RenderCall(result)] + a.calls;
      assert forall j :: 2 <= j < |r.calls| ==> r.calls[j].ResizeCall?;
      assert !CausesExit(r.calls[0]);
      assert CausesExit(r.calls[1]) <==> result == Err(OutOfMemory);
    case MainEventsCleared =>
      assert r.calls == [];
    case _ =>
      assert r.calls == [];
  }

  /** A cause found from `from` on lies before `mid` or from `mid` on. */
  lemma ExitCauseSplit(c: seq<Call>, from: nat, mid: nat)
    requires from <= mid <= |c|
    ensures HasExitCause(c, from) <==> HasExitCause(c[..mid], from) || HasExitCause(c, mid)
  {
    if HasExitCause(c, from) && !HasExitCause(c, mid) {
      var i :| from <= i < |c| && CausesExit(c[i]);
      assert c[..mid][i] == c[i];
    }
    if HasExitCause(c[..mid], from) {
      var i :| from <= i < mid && CausesExit(c[..mid][i]);
      assert c[i] == c[..mid][i];
    }
  }

  /** The causes in the appended part of `a + b` are those of `b`. */
  lemma ExitCauseAppended(a: seq<Call>, b: seq<Call>)
    ensures HasExitCause(a + b, |a|) <==> HasExitCause(b, 0)
  {
    if HasExitCause(b, 0) {
      var j :| 0 <= j < |b| && CausesExit(b[j]);
      assert (a + b)[|a| + j] == b[j];
    }
    if HasExitCause(a + b, |a|) {
      var i :| |a| <= i < |a + b| && CausesExit((a + b)[i]);
      assert b[i - |a|] == (a + b)[i];
    }
  }

  /** One event: the control flow becomes Exit exactly when it was Exit
      already or one of the calls the event appended causes it. */
  lemma NextExitCause(setting: Setting, s: LoopState, e: Event)
    ensures var n := Next(setting, s, e);
      n.controlFlow == Exit <==> s.controlFlow == Exit || HasExitCause(n.calls, |s.calls|)
  {
    var size := ConfiguredSize(setting.initialSize, s.calls);
    var r := Dispatch(setting, e, s.controlFlow, size, s.calls);
    DispatchExitCause(setting, e, s.controlFlow, size, s.calls);
    ExitCauseAppended(s.calls, r.calls);
    assert Next(setting, s, e) == LoopState(r.controlFlow, s.calls + r.calls, s.redraws + r.redraws);
  }

  /** The loop ends up in Exit exactly when it started there or the trace
      shows a close request, an Escape press or an out-of-memory render that
      the renderer did not claim. */
  lemma {:induction false} ExitExactlyOnCause(setting: Setting, s: LoopState, events: seq<Event>)
    ensures var t := Deliver(setting, s, events);
      t.controlFlow == Exit <==> s.controlFlow == Exit || HasExitCause(t.calls, |s.calls|)
    decreases |events|
  {
    if events != [] {
      var n := Next(setting, s, events[0]);
      var t := Deliver(setting, n, events[1..]);
      assert Deliver(setting, s, events) == t;
      NextExitCause(setting, s, events[0]);
      ExitExactlyOnCause(setting, n, events[1..]);
      ExitCauseSplit(t.calls, |s.calls|, |n.calls|);
      assert t.calls[..|n.calls|] == n.calls;
    } else {
      assert !HasExitCause(s.calls, |s.calls|);
    }
  }

  // ---------------------------------------------------------------------
  // Running until exit

  /** How many events the platform delivers before the control flow is Exit
      (all of them if it never is). */
  function DeliveredCount(setting: Setting, s: LoopState, events: seq<Event>): (k: nat)
    ensures k <= |events|
    ensures s.controlFlow == Exit ==> k == 0
    decreases |events|
  {
    if events == [] || s.controlFlow == Exit then 0
    else 1 + DeliveredCount(setting, Next(setting, s, events[0]), events[1..])
  }

  /** Delivering the first j + 1 events is one step, then the first j of the rest. */
  lemma DeliverPrefix(setting: Setting, s: LoopState, events: seq<Event>, j: nat)
    requires j < |events|
    ensures Deliver(setting, s, events[..j + 1]) == Deliver(setting, Next(setting, s, events[0]), events[1..][..j])
  {
    assert events[..j + 1][0] == events[0];
    assert events[..j + 1][1..] == events[1..][..j];
  }

  /** Running until exit does what delivering the first
      `DeliveredCount` events does. */
  lemma {:induction false} RunDeliversCounted(setting: Setting, s: LoopState, events: seq<Event>)
    ensures RunUntilExit(setting, s, events) == Deliver(setting, s, events[..DeliveredCount(setting, s, events)])
    decreases |events|
  {
    if events == [] || s.controlFlow == Exit {
      assert events[..DeliveredCount(setting, s, events)] == [];
    } else {
      var n := Next(setting, s, events[0]);
      var k' := DeliveredCount(setting, n, events[1..]);
      calc {
        RunUntilExit(setting, s, events);
        RunUntilExit(setting, n, events[1..]);
        { RunDeliversCounted(setting, n, events[1..]); }
        Deliver(setting, n, events[1..][..k']);
        { DeliverPrefix(setting, s, events, k'); }
        Deliver(setting, s, events[..k' + 1]);
      }
    }
  }

  /** When the platform stops before the last event, control flow is Exit. */
  lemma {:induction false} StopsEarlyOnlyAtExit(setting: Setting, s: LoopState, events: seq<Event>)
    ensures DeliveredCount(setting, s, events) < |events| ==> RunUntilExit(setting, s, events).controlFlow == Exit
    decreases |events|
  {
    if events != [] && s.controlFlow != Exit {
      var n := Next(setting, s, events[0]);
      assert DeliveredCount(setting, s, events) == 1 + DeliveredCount(setting, n, events[1..]);
      assert RunUntilExit(setting, s, events) == RunUntilExit(setting, n, events[1..]);
      StopsEarlyOnlyAtExit(setting, n, events[1..]);
    }
  }

  /** No shorter prefix of the counted events reaches Exit. */
  lemma {:induction false} NoExitBeforeCount(setting: Setting, s: LoopState, events: seq<Event>)
    ensures forall j :: 0 <= j < DeliveredCount(setting, s, events) ==>
      Deliver(setting, s, events[..j]).controlFlow != Exit
    decreases |events|
  {
    var k := DeliveredCount(setting, s, events);
    if events != [] && s.controlFlow != Exit {
      var n := Next(setting, s, events[0]);
      NoExitBeforeCount(setting, n, events[1..]);
      forall j | 0 <= j < k
        ensures Deliver(setting, s, events[..j]).controlFlow != Exit
      {
        if j == 0 {
          assert events[..j] == [];
        } else {
          DeliverPrefix(setting, s, events, j - 1);
        }
      }
    }
  }

  /** Running until exit is delivering a prefix of the events: the platform
      delivers each event while the control flow is not Exit, and stops at
      the first point where it is. */
  lemma RunIsDeliveredPrefix(setting: Setting, s: LoopState, events: seq<Event>)
    ensures var k := DeliveredCount(setting, s, events);
      RunUntilExit(setting, s, events) == Deliver(setting, s, events[..k]) &&
      (k < |events| ==> Deliver(setting, s, events[..k]).controlFlow == Exit) &&
      (forall j :: 0 <= j < k ==> Deliver(setting, s, events[..j]).controlFlow != Exit)
  {
    RunDeliversCounted(setting, s, events);
    StopsEarlyOnlyAtExit(setting, s, events);
    NoExitBeforeCount(setting, s, events);
  }

  /** Within the calls of one event, an out-of-memory render is the last
      call, and the event leaves control flow Exit. */
  lemma DispatchOutOfMemory(setting: Setting, e: Event, cf: ControlFlow, size: PhysicalSize, history: seq<Call>)
    ensures var r := Dispatch(setting, e, cf, size, history);
      forall j :: 0 <= j < |r.calls| && r.calls[j] == RenderCall(Err(OutOfMemory)) ==>
        j == |r.calls| - 1 && r.controlFlow == Exit
  {
    var r := Dispatch(setting, e, cf, size, history);
    match e
    case WindowEventOf(windowId, payload) =>
      assert forall j :: 0 <= j < |r.calls| ==> r.calls[j].InputCall? || r.calls[j].ResizeCall?;
    case RedrawRequested(_) =>
      var result := setting.outcome(history + [UpdateCall]);
      var a := AfterRender(result, cf, size);
      assert r.calls == [UpdateCall, RenderCall(result)] + a.calls;
      assert forall j :: 2 <= j < |r.calls| ==> r.calls[j].ResizeCall?;
    case MainEventsCleared =>
      assert r.calls == [];
    case _ =>
      assert r.calls == [];
  }

  /** From `from` on, an out-of-memory render in the trace is its last call,
      and the control flow is Exit. */
  ghost predicate OutOfMemoryIsLast(t: LoopState, from: nat) {
    forall i :: from <= i < |t.calls| && t.calls[i] == RenderCall(Err(OutOfMemory)) ==>
      i == |t.calls| - 1 && t.controlFlow == Exit
  }

  /** One event: an out-of-memory render among the calls it appends is the
      last of them, and the control flow is then Exit. */
  lemma NextOutOfMemory(setting: Setting, s: LoopState, e: Event)
    ensures OutOfMemoryIsLast(Next(setting, s, e), |s.calls|)
  {
    var size := ConfiguredSize(setting.initialSize, s.calls);
    var r := Dispatch(setting, e, s.controlFlow, size, s.calls);
    var n := Next(setting, s, e);
    DispatchOutOfMemory(setting, e, s.controlFlow, size, s.calls);
    assert n == LoopState(r.controlFlow, s.calls + r.calls, s.redraws + r.redraws);
    forall i | |s.calls| <= i < |n.calls| && n.calls[i] == RenderCall(Err(OutOfMemory))
      ensures i == |n.calls| - 1 && n.controlFlow == Exit
    {
      assert r.calls[i - |s.calls|] == n.calls[i];
    }
  }

  /** A state that is not Exit has no out-of-memory render in its new calls,
      so the property for a later state carries back to the earlier start. */
  lemma OutOfMemoryIsLastJoin(n: LoopState, t: LoopState, from: nat)
    requires from <= |n.calls| <= |t.calls| && t.calls[..|n.calls|] == n.calls
    requires OutOfMemoryIsLast(n, from) && n.controlFlow != Exit
    requires OutOfMemoryIsLast(t, |n.calls|)
    ensures OutOfMemoryIsLast(t, from)
  {
    forall i | from <= i < |n.calls|
      ensures t.calls[i] != RenderCall(Err(OutOfMemory))
    {
      assert t.calls[i] == n.calls[i];
    }
  }

  /** An out-of-memory render is the last call the renderer ever receives,
      and the run ends with control flow Exit. */
  lemma {:induction false} OutOfMemoryEndsRun(setting: Setting, s: LoopState, events: seq<Event>)
    ensures OutOfMemoryIsLast(RunUntilExit(setting, s, events), |s.calls|)
    decreases |events|
  {
    if events != [] && s.controlFlow != Exit {
      var n := Next(setting, s, events[0]);
      var t := RunUntilExit(setting, n, events[1..]);
      assert RunUntilExit(setting, s, events) == t;
      NextOutOfMemory(setting, s, events[0]);
      if n.controlFlow == Exit {
        assert t == n;
      } else {
        OutOfMemoryEndsRun(setting, n, events[1..]);
        OutOfMemoryIsLastJoin(n, t, |s.calls|);
      }
    } else {
      assert RunUntilExit(setting, s, events) == s;
    }
  }

  // ---------------------------------------------------------------------
  // Scenarios

  /** An unclaimed close request ends the run: the renderer only sees the
      request itself, and no later event reaches it. */
  lemma CloseRequestEndsRun(setting: Setting, s: LoopState, rest: seq<Event>)
    requires s.controlFlow != Exit
    requires !setting.claims(s.calls, CloseRequested)
    ensures var t := RunUntilExit(setting, s, [WindowEventOf(setting.mainWindow, CloseRequested)] + rest);
      t.controlFlow == Exit && t.calls == s.calls + [InputCall(CloseRequested, false)] && t.redraws == s.redraws
  {
    var events := [WindowEventOf(setting.mainWindow, CloseRequested)] + rest;
    assert events[1..] == rest;
    assert RunUntilExit(setting, s, events) == RunUntilExit(setting, Next(setting, s, events[0]), rest);
  }

  /** A zero-sized resize is passed on as it is, and the next redraw updates,
      renders and reacts to the outcome as usual, with the renderer now
      configured for the zero size (a lost surface is resized to it). */
  lemma ZeroSizeResizeThenRedraw(setting: Setting, s: LoopState)
    requires !setting.claims(s.calls, Resized(PhysicalSize(0, 0)))
    ensures var zero := PhysicalSize(0, 0);
      var before := s.calls + [InputCall(Resized(zero), false), ResizeCall(zero)];
      var result := setting.outcome(before + [UpdateCall]);
      var a := AfterRender(result, s.controlFlow, zero);
      var t := Deliver(setting, s, [WindowEventOf(setting.mainWindow, Resized(zero)),
                                    RedrawRequested(setting.mainWindow)]);
      t.controlFlow == a.controlFlow && t.redraws == s.redraws &&
      t.calls == before + [UpdateCall, RenderCall(result)] + a.calls
  {
    var zero := PhysicalSize(0, 0);
    var before := s.calls + [InputCall(Resized(zero), false), ResizeCall(zero)];
    var events := [WindowEventOf(setting.mainWindow, Resized(zero)), RedrawRequested(setting.mainWindow)];
    var n := Next(setting, s, events[0]);
    assert n.calls == before;
    assert ConfiguredSize(setting.initialSize, before) == zero;
    assert events[1..] == [RedrawRequested(setting.mainWindow)];
    assert events[1..][1..] == [];
    var t := Next(setting, n, RedrawRequested(setting.mainWindow));
    assert Deliver(setting, n, events[1..]) == Deliver(setting, t, []);
    assert Deliver(setting, s, events) == t;
  }

  /** A lost surface is recovered by one resize to the renderer's own size,
      and the loop carries on. */
  lemma SurfaceLostScenario(setting: Setting, s: LoopState, target: WindowId)
    requires setting.outcome(s.calls + [UpdateCall]) == Err(Lost)
    ensures var t := Deliver(setting, s, [RedrawRequested(target)]);
      t.controlFlow == s.controlFlow && t.redraws == s.redraws &&
      t.calls == s.calls + [UpdateCall, RenderCall(Err(Lost)), ResizeCall(ConfiguredSize(setting.initialSize, s.calls))]
  {
    assert [RedrawRequested(target)][1..] == [];
  }
}
