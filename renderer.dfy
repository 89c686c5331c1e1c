/**
  Frame pacing of the renderer: the per-slot synchronisation objects, the
  draw-frame tick with its early return and error paths, and the resize flag.

  The swapchain, queue and command-buffer calls are foreign: their result
  codes are the fields of a `TickInput`, and the calls themselves appear as
  `Event`s, in the order the tick makes them, in the trace it returns.  The GPU is not a concurrent
  process here; finishing the work submitted for a slot is the environment
  step `GpuComplete`.
 */
module Renderer {
  import Scene

  /** Number of frames recorded ahead of the GPU, one synchronisation slot each. */
  const MaxFramesInFlight: nat := 2

  /** The result codes the tick distinguishes. */
  datatype VkResult = Success | Suboptimal | OutOfDate | OtherError

  /**
    A slot's in-flight fence: not created yet, unsignaled with no work that
    will signal it, signaled, or unsignaled with submitted work that signals
    it on completion.
   */
  datatype Fence = NullFence | Unsignaled | Signaled | Pending

  datatype Semaphore = NullSemaphore | Created

  datatype FatalError = AcquireFailed | BeginFailed | EndFailed | SubmitFailed | PresentFailed

  /** One call the tick makes, with the slot it uses. */
  datatype Event =
    | WaitFence(slot: nat)
    | AcquireImage(slot: nat)
    | RecreateSwapchain
    | ProcessInput
    | UpdateCamera(slot: nat)
    | RecordCommands(slot: nat, indexCount: nat)
    | ResetFence(slot: nat)
    | Submit(slot: nat)
    | Present(slot: nat)

  /** The results of the foreign calls one tick makes. */
  datatype TickInput = TickInput(acquire: VkResult, beginOk: bool, endOk: bool, submitOk: bool, present: VkResult)

  /**
    How a tick ends: it reached the slot advance, it returned early after a
    stale acquire, it raised an error, or it waited forever on a fence that
    no work will signal.
   */
  datatype Outcome = Completed | AcquireOutOfDate | Fatal(error: FatalError) | Deadlock

  /** The part of the renderer's state the tick reads and writes. */
  datatype FrameState = FrameState(currentFrame: nat, fences: seq<Fence>, framebufferResized: bool)

  datatype TickResult = TickResult(state: FrameState, events: seq<Event>, outcome: Outcome)

  /** The slot index and the fence vector fit: every fence access of the tick is in bounds. */
  predicate InBounds(s: FrameState)
  {
    |s.fences| == MaxFramesInFlight && s.currentFrame < MaxFramesInFlight
  }

  /** Between ticks every fence is signaled or has work outstanding that will signal it. */
  predicate Valid(s: FrameState)
  {
    && InBounds(s)
    && forall i :: 0 <= i < |s.fences| ==> s.fences[i] == Signaled || s.fences[i] == Pending
  }

  /** The slot advance: the next slot, modulo the number of frames in flight. */
  function Advance(slot: nat): (next: nat)
    ensures next < MaxFramesInFlight
  {
    (slot + 1) % MaxFramesInFlight
  }

  /** Every fence other than slot's is the same in t as in s. */
  predicate OnlySlotFenceChanged(s: FrameState, t: FrameState, slot: nat)
  {
    |t.fences| == |s.fences| && forall i :: 0 <= i < |s.fences| && i != slot ==> t.fences[i] == s.fences[i]
  }

  /** A result whose events are preceded by `first`. */
  function After(first: seq<Event>, r: TickResult): TickResult
  {
    r.(events := first + r.events)
  }

  /**
    One draw-frame tick.  Wait on the current slot's fence; acquire an image;
    on a stale swapchain recreate it and return; on any other failure raise;
    poll input and update the camera; record the draw of `indexCount`
    indices; reset the fence and submit work that re-arms it; present; on a
    stale or suboptimal present or a pending resize clear the flag and
    recreate, otherwise raise on failure; advance the slot.
   */
  function Tick(s: FrameState, input: TickInput, indexCount: nat): (r: TickResult)
    requires InBounds(s)
    ensures InBounds(r.state)
  {
    var f := s.currentFrame;
    if s.fences[f] == NullFence || s.fences[f] == Unsignaled then
      TickResult(s, [WaitFence(f)], Deadlock)
    else
      After([WaitFence(f)], AcquireStage(s.(fences := s.fences[f := Signaled]), input, indexCount))
  }

  /** The tick from the acquire on, once the wait has returned. */
  function AcquireStage(s: FrameState, input: TickInput, indexCount: nat): (r: TickResult)
    requires InBounds(s)
    ensures InBounds(r.state)
  {
    var f := s.currentFrame;
    if input.acquire == OutOfDate then
      TickResult(s, [AcquireImage(f), RecreateSwapchain], AcquireOutOfDate)
    else if input.acquire == OtherError then
      TickResult(s, [AcquireImage(f)], Fatal(AcquireFailed))
    else
      After([AcquireImage(f), ProcessInput, UpdateCamera(f)], RecordStage(s, input, indexCount))
  }

  /** The tick from the command recording on. */
  function RecordStage(s: FrameState, input: TickInput, indexCount: nat): (r: TickResult)
    requires InBounds(s)
    ensures InBounds(r.state)
  {
    var f := s.currentFrame;
    if !input.beginOk then
      TickResult(s, [], Fatal(BeginFailed))
    else if !input.endOk then
      TickResult(s, [RecordCommands(f, indexCount)], Fatal(EndFailed))
    else if !input.submitOk then
      TickResult(s.(fences := s.fences[f := Unsignaled]),
                 [RecordCommands(f, indexCount), ResetFence(f), Submit(f)], Fatal(SubmitFailed))
    else
      After([RecordCommands(f, indexCount), ResetFence(f), Submit(f)],
            PresentStage(s.(fences := s.fences[f := Unsignaled][f := Pending]), input))
  }

  /** The tick from the present on, once the submit has re-armed the fence. */
  function PresentStage(s: FrameState, input: TickInput): (r: TickResult)
    requires InBounds(s)
    ensures InBounds(r.state)
  {
    var f := s.currentFrame;
    if input.present == OutOfDate || input.present == Suboptimal || s.framebufferResized then
      TickResult(s.(currentFrame := Advance(f), framebufferResized := false),
                 [Present(f), RecreateSwapchain], Completed)
    else if input.present != Success then
      TickResult(s, [Present(f)], Fatal(PresentFailed))
    else
      TickResult(s.(currentFrame := Advance(f)), [Present(f)], Completed)
  }

  /** The GPU finishes the work submitted for a slot: its fence becomes signaled. */
  function GpuComplete(s: FrameState, slot: nat): (t: FrameState)
    requires InBounds(s)
    ensures InBounds(t)
  {
    if slot < |s.fences| && s.fences[slot] == Pending then s.(fences := s.fences[slot := Signaled]) else s
  }

  /** One step of the environment: a frame, a GPU completion, or the resize callback. */
  datatype Step = Frame(input: TickInput) | Completion(slot: nat) | Resize

  datatype RunResult = RunResult(state: FrameState, completed: nat, stopped: Outcome)

  predicate Stops(o: Outcome)
  {
    o.Fatal? || o.Deadlock?
  }

  /**
    The render loop over a sequence of environment steps, up to the first tick
    that raises or deadlocks; `completed` counts the ticks that advanced, and
    `stopped` is Completed when no tick stopped the loop.
   */
  function Run(s: FrameState, steps: seq<Step>, indexCount: nat): (r: RunResult)
    requires InBounds(s)
    ensures InBounds(r.state)
    decreases |steps|
  {
    if steps == [] then RunResult(s, 0, Completed)
    else
      match steps[0]
      case Completion(slot) => Run(GpuComplete(s, slot), steps[1..], indexCount)
      case Resize => Run(s.(framebufferResized := true), steps[1..], indexCount)
      case Frame(input) =>
        var t := Tick(s, input, indexCount);
        if Stops(t.outcome) then RunResult(t.state, 0, t.outcome)
        else
          var rest := Run(t.state, steps[1..], indexCount);
          RunResult(rest.state, rest.completed + (if t.outcome == Completed then 1 else 0), rest.stopped)
  }

  // ---------------------------------------------------------------------
  // Properties of one tick

  /** Every tick begins with the wait on the current slot's fence. */
  lemma TickBeginsWithWait(s: FrameState, input: TickInput, indexCount: nat)
    requires InBounds(s)
    ensures |Tick(s, input, indexCount).events| > 0
    ensures Tick(s, input, indexCount).events[0] == WaitFence(s.currentFrame)
  {
  }

  /** A GPU completion writes only the completed slot's fence. */
  lemma GpuCompleteChangesOnlyItsFence(s: FrameState, slot: nat)
    requires InBounds(s)
    ensures GpuComplete(s, slot).currentFrame == s.currentFrame
    ensures GpuComplete(s, slot).framebufferResized == s.framebufferResized
    ensures OnlySlotFenceChanged(s, GpuComplete(s, slot), slot)
  {
  }

  /** Each environment step completes at most one frame. */
  lemma {:induction false} RunCompletesAtMostOnePerStep(s: FrameState, steps: seq<Step>, indexCount: nat)
    requires InBounds(s)
    ensures Run(s, steps, indexCount).completed <= |steps|
    decreases |steps|
  {
    if steps != [] {
      match steps[0]
      case Completion(slot) => RunCompletesAtMostOnePerStep(GpuComplete(s, slot), steps[1..], indexCount);
      case Resize => RunCompletesAtMostOnePerStep(s.(framebufferResized := true), steps[1..], indexCount);
      case Frame(input) =>
        var t := Tick(s, input, indexCount);
        if !Stops(t.outcome) {
          RunCompletesAtMostOnePerStep(t.state, steps[1..], indexCount);
        }
    }
  }

  /** A tick writes only the current slot's fence. */
  lemma TickChangesOnlyItsFence(s: FrameState, input: TickInput, indexCount: nat)
    requires InBounds(s)
    ensures OnlySlotFenceChanged(s, Tick(s, input, indexCount).state, s.currentFrame)
  {
    var f := s.currentFrame;
    if s.fences[f] != NullFence && s.fences[f] != Unsignaled {
      var t := s.(fences := s.fences[f := Signaled]);
      if input.acquire != OutOfDate && input.acquire != OtherError && input.beginOk && input.endOk && input.submitOk {
        assert Tick(s, input, indexCount).state.fences == t.fences[f := Unsignaled][f := Pending];
      }
    }
  }

  /** The wait never blocks forever and a tick that does not raise keeps every fence armed or signaled. */
  lemma TickKeepsValid(s: FrameState, input: TickInput, indexCount: nat)
    requires Valid(s)
    ensures Tick(s, input, indexCount).outcome != Deadlock
    ensures !Tick(s, input, indexCount).outcome.Fatal? ==> Valid(Tick(s, input, indexCount).state)
  {
    var f := s.currentFrame;
    assert s.fences[f] == Signaled || s.fences[f] == Pending;
  }

  /** A tick that reaches the end advances the slot; every other tick leaves it. */
  lemma TickAdvances(s: FrameState, input: TickInput, indexCount: nat)
    requires InBounds(s)
    ensures Tick(s, input, indexCount).outcome == Completed ==>
      Tick(s, input, indexCount).state.currentFrame == (s.currentFrame + 1) % MaxFramesInFlight
    ensures Tick(s, input, indexCount).outcome != Completed ==>
      Tick(s, input, indexCount).state.currentFrame == s.currentFrame
  {
  }

  function Count(events: seq<Event>, e: Event): nat
  {
    if events == [] then 0 else Count(events[..|events| - 1], e) + (if events[|events| - 1] == e then 1 else 0)
  }

  /** Appending one event adds one to its own count and nothing to any other. */
  lemma CountSnoc(events: seq<Event>, x: Event, e: Event)
    ensures Count(events + [x], e) == Count(events, e) + (if x == e then 1 else 0)
  {
  }

  /** An event that does not occur has count zero. */
  lemma {:induction false} CountAbsent(events: seq<Event>, e: Event)
    requires e !in events
    ensures Count(events, e) == 0
    decreases |events|
  {
    if events != [] {
      var front := events[..|events| - 1];
      assert forall x :: x in front ==> x in events;
      CountAbsent(front, e);
    }
  }

  /**
    A stale acquire recreates the swapchain exactly once and returns: nothing
    is recorded, reset, submitted or presented, and the slot does not advance.
   */
  lemma OutOfDateAcquireReturns(s: FrameState, input: TickInput, indexCount: nat)
    requires Valid(s) && input.acquire == OutOfDate
    ensures var r := Tick(s, input, indexCount);
      && r.outcome == AcquireOutOfDate
      && r.events == [WaitFence(s.currentFrame), AcquireImage(s.currentFrame), RecreateSwapchain]
      && Count(r.events, RecreateSwapchain) == 1
      && r.state.currentFrame == s.currentFrame
      && r.state.framebufferResized == s.framebufferResized
      && r.state.fences == s.fences[s.currentFrame := Signaled]
  {
    var f := s.currentFrame;
    var es := [WaitFence(f), AcquireImage(f), RecreateSwapchain];
    assert es[..2][..1] == [WaitFence(f)];
    assert es[..2] == [WaitFence(f), AcquireImage(f)];
    assert [WaitFence(f)][..0] == [];
    assert Count([WaitFence(f)], RecreateSwapchain) == 0;
    assert Count(es[..2], RecreateSwapchain) == 0;
  }

  /** An acquire failure other than a stale swapchain raises before anything is submitted. */
  lemma AcquireErrorIsFatal(s: FrameState, input: TickInput, indexCount: nat)
    requires Valid(s) && input.acquire == OtherError
    ensures Tick(s, input, indexCount).outcome == Fatal(AcquireFailed)
    ensures Submit(s.currentFrame) !in Tick(s, input, indexCount).events
    ensures ResetFence(s.currentFrame) !in Tick(s, input, indexCount).events
  {
  }

  /** A suboptimal acquire continues exactly as a successful one. */
  lemma SuboptimalAcquireContinues(s: FrameState, input: TickInput, indexCount: nat)
    requires InBounds(s) && input.acquire == Suboptimal
    ensures Tick(s, input, indexCount) == Tick(s, input.(acquire := Success), indexCount)
  {
  }

  /**
    The fence is reset only after an acquire that was neither stale nor
    failed, and the very next call is the submit that re-arms the same fence.
   */
  lemma ResetImmediatelyBeforeSubmit(s: FrameState, input: TickInput, indexCount: nat, k: nat)
    requires InBounds(s)
    requires k < |Tick(s, input, indexCount).events| && Tick(s, input, indexCount).events[k].ResetFence?
    ensures input.acquire == Success || input.acquire == Suboptimal
    ensures Tick(s, input, indexCount).events[k] == ResetFence(s.currentFrame)
    ensures k + 1 < |Tick(s, input, indexCount).events|
    ensures Tick(s, input, indexCount).events[k + 1] == Submit(s.currentFrame)
  {
    var f := s.currentFrame;
    var r := Tick(s, input, indexCount);
    assert s.fences[f] != NullFence && s.fences[f] != Unsignaled && input.acquire != OutOfDate;
    assert input.acquire != OtherError && input.beginOk && input.endOk;
    var prefix := [WaitFence(f), AcquireImage(f), ProcessInput, UpdateCamera(f),
                   RecordCommands(f, indexCount), ResetFence(f), Submit(f)];
    assert |r.events| >= 7 && r.events[..7] == prefix;
    assert forall j :: 7 <= j < |r.events| ==> r.events[j] == Present(f) || r.events[j] == RecreateSwapchain;
    assert k < 7;
    assert prefix[k].ResetFence?;
  }

  /** The draw recorded by a tick uses the slot in hand and the scene's index count. */
  lemma RecordsSceneIndexCount(s: FrameState, input: TickInput, indexCount: nat, slot: nat, count: nat)
    requires InBounds(s) && RecordCommands(slot, count) in Tick(s, input, indexCount).events
    ensures slot == s.currentFrame && count == indexCount
  {
  }

  /**
    After a successful submit the present result is handled so: a stale or
    suboptimal result or a pending resize clears the flag and recreates the
    swapchain once; otherwise any result but success raises.
   */
  lemma PresentHandling(s: FrameState, input: TickInput, indexCount: nat)
    requires Valid(s)
    requires input.acquire in {Success, Suboptimal} && input.beginOk && input.endOk && input.submitOk
    ensures var r := Tick(s, input, indexCount);
      var recreate := input.present == OutOfDate || input.present == Suboptimal || s.framebufferResized;
      && (recreate ==> r.outcome == Completed && !r.state.framebufferResized
                       && r.events[|r.events| - 1] == RecreateSwapchain
                       && Count(r.events, RecreateSwapchain) == 1)
      && (!recreate && input.present == Success ==> r.outcome == Completed && r.events[|r.events| - 1] == Present(s.currentFrame))
      && (!recreate && input.present != Success ==> r.outcome == Fatal(PresentFailed))
      && r.state.fences == s.fences[s.currentFrame := Pending]
  {
    if input.present == OutOfDate || input.present == Suboptimal || s.framebufferResized {
      PresentRecreatesOnce(s, input, indexCount);
    }
  }

  /** On the recreate path of the present the swapchain is recreated exactly once, as the last call. */
  lemma PresentRecreatesOnce(s: FrameState, input: TickInput, indexCount: nat)
    requires Valid(s)
    requires input.acquire in {Success, Suboptimal} && input.beginOk && input.endOk && input.submitOk
    requires input.present == OutOfDate || input.present == Suboptimal || s.framebufferResized
    ensures Count(Tick(s, input, indexCount).events, RecreateSwapchain) == 1
  {
    var f := s.currentFrame;
    var prefix := [WaitFence(f), AcquireImage(f), ProcessInput, UpdateCamera(f),
                   RecordCommands(f, indexCount), ResetFence(f), Submit(f), Present(f)];
    assert Tick(s, input, indexCount).events == prefix + [RecreateSwapchain];
    CountAbsent(prefix, RecreateSwapchain);
    CountSnoc(prefix, RecreateSwapchain, RecreateSwapchain);
  }

  /** A pending resize masks a failed present: the tick completes instead of raising. */
  lemma ResizeMasksPresentError(s: FrameState, input: TickInput, indexCount: nat)
    requires Valid(s) && s.framebufferResized
    requires input.acquire == Success && input.beginOk && input.endOk && input.submitOk
    requires input.present == OtherError
    ensures Tick(s, input, indexCount).outcome == Completed
    ensures RecreateSwapchain in Tick(s, input, indexCount).events
  {
    PresentHandling(s, input, indexCount);
    var r := Tick(s, input, indexCount);
    assert r.events[|r.events| - 1] in r.events;
  }

  /** After any tick that reaches the slot advance the resize flag is clear. */
  lemma CompletedClearsResize(s: FrameState, input: TickInput, indexCount: nat)
    requires InBounds(s)
    ensures Tick(s, input, indexCount).outcome == Completed ==> !Tick(s, input, indexCount).state.framebufferResized
  {
  }

  /** A GPU completion keeps every fence armed or signaled. */
  lemma GpuCompleteKeepsValid(s: FrameState, slot: nat)
    requires Valid(s)
    ensures Valid(GpuComplete(s, slot))
  {
  }

  // ---------------------------------------------------------------------
  // Properties of the render loop

  /**
    From a valid state the loop never deadlocks, ends in a valid state unless
    a call raised, and after m completed ticks the slot is start + m modulo
    the number of frames in flight.
   */
  lemma {:induction false} RunRotatesSlots(s: FrameState, steps: seq<Step>, indexCount: nat)
    requires Valid(s)
    ensures Run(s, steps, indexCount).stopped != Deadlock
    ensures !Run(s, steps, indexCount).stopped.Fatal? ==> Valid(Run(s, steps, indexCount).state)
    ensures Run(s, steps, indexCount).state.currentFrame
         == (s.currentFrame + Run(s, steps, indexCount).completed) % MaxFramesInFlight
    decreases |steps|
  {
    if steps != [] {
      match steps[0]
      case Completion(slot) =>
        GpuCompleteKeepsValid(s, slot);
        RunRotatesSlots(GpuComplete(s, slot), steps[1..], indexCount);
      case Resize =>
        RunRotatesSlots(s.(framebufferResized := true), steps[1..], indexCount);
      case Frame(input) =>
        var t := Tick(s, input, indexCount);
        TickKeepsValid(s, input, indexCount);
        TickAdvances(s, input, indexCount);
        if !Stops(t.outcome) {
          RunRotatesSlots(t.state, steps[1..], indexCount);
        }
    }
  }

  // ---------------------------------------------------------------------

  /** Whether creating one slot's two semaphores and fence succeeded, call by call. */
  datatype SlotResults = SlotResults(imageAvailableOk: bool, renderFinishedOk: bool, fenceOk: bool)

  predicate SlotOk(r: SlotResults)
  {
    r.imageAvailableOk && r.renderFinishedOk && r.fenceOk
  }

  class Renderer {
    var currentFrame: nat
    var framebufferResized: bool
    var imageAvailableSemaphores: seq<Semaphore>
    var renderFinishedSemaphores: seq<Semaphore>
    var inFlightFences: seq<Fence>

    ghost function State(): FrameState
      reads this
    {
      FrameState(currentFrame, inFlightFences, framebufferResized)
    }

    constructor ()
      ensures currentFrame == 0 && !framebufferResized
      ensures imageAvailableSemaphores == [] && renderFinishedSemaphores == [] && inFlightFences == []
    {
      currentFrame := 0;
      framebufferResized := false;
      imageAvailableSemaphores := [];
      renderFinishedSemaphores := [];
      inFlightFences := [];
    }

    /**
      Sizes the three per-slot vectors to the number of frames in flight and
      creates each slot's objects, the fence already signaled.  The three
      creations of a slot short-circuit, and the first failure raises.
     */
    method CreateSyncObjects(results: seq<SlotResults>) returns (ok: bool)
      requires |results| == MaxFramesInFlight && currentFrame < MaxFramesInFlight
      modifies this
      ensures ok <==> forall i :: 0 <= i < MaxFramesInFlight ==> SlotOk(results[i])
      ensures |imageAvailableSemaphores| == |renderFinishedSemaphores| == |inFlightFences| == MaxFramesInFlight
      ensures ok ==> Valid(State())
      ensures ok ==> inFlightFences == [Signaled, Signaled]
      ensures ok ==> imageAvailableSemaphores == [Created, Created] && renderFinishedSemaphores == [Created, Created]
      ensures forall i :: 0 <= i < MaxFramesInFlight && (forall j :: 0 <= j <= i ==> SlotOk(results[j])) ==>
        imageAvailableSemaphores[i] == Created && renderFinishedSemaphores[i] == Created && inFlightFences[i] == Signaled
      ensures currentFrame == old(currentFrame) && framebufferResized == old(framebufferResized)
    {
      imageAvailableSemaphores := [NullSemaphore, NullSemaphore];
      renderFinishedSemaphores := [NullSemaphore, NullSemaphore];
      inFlightFences := [NullFence, NullFence];
      var i := 0;
      while i < MaxFramesInFlight
        invariant 0 <= i <= MaxFramesInFlight
        invariant |imageAvailableSemaphores| == |renderFinishedSemaphores| == |inFlightFences| == MaxFramesInFlight
        invariant forall j :: 0 <= j < i ==> SlotOk(results[j])
        invariant forall j :: 0 <= j < i ==>
          imageAvailableSemaphores[j] == Created && renderFinishedSemaphores[j] == Created && inFlightFences[j] == Signaled
        invariant currentFrame == old(currentFrame) && framebufferResized == old(framebufferResized)
      {
        var r := results[i];
        if !r.imageAvailableOk {
          return false;
        }
        imageAvailableSemaphores := imageAvailableSemaphores[i := Created];
        if !r.renderFinishedOk {
          return false;
        }
        renderFinishedSemaphores := renderFinishedSemaphores[i := Created];
        if !r.fenceOk {
          return false;
        }
        inFlightFences := inFlightFences[i := Signaled];
        i := i + 1;
      }
      assert inFlightFences == [inFlightFences[0], inFlightFences[1]];
      assert imageAvailableSemaphores == [imageAvailableSemaphores[0], imageAvailableSemaphores[1]];
      assert renderFinishedSemaphores == [renderFinishedSemaphores[0], renderFinishedSemaphores[1]];
      return true;
    }

    /** The window callback: it only records that the framebuffer was resized. */
    method FramebufferResizeCallback()
      modifies this
      ensures framebufferResized
      ensures currentFrame == old(currentFrame) && inFlightFences == old(inFlightFences)
      ensures imageAvailableSemaphores == old(imageAvailableSemaphores)
      ensures renderFinishedSemaphores == old(renderFinishedSemaphores)
    {
      framebufferResized := true;
    }

    /**
      One draw-frame tick over the renderer's fields; it draws the scene's
      index count, and `trace` lists the foreign calls it made, in order.
     */
    method DrawFrame(input: TickInput, scene: Scene.Scene) returns (outcome: Outcome, trace: seq<Event>)
      requires InBounds(State())
      modifies this
      ensures outcome == Tick(old(State()), input, scene.ri.numIndices).outcome
      ensures State() == Tick(old(State()), input, scene.ri.numIndices).state
      ensures trace == Tick(old(State()), input, scene.ri.numIndices).events
      ensures imageAvailableSemaphores == old(imageAvailableSemaphores)
      ensures renderFinishedSemaphores == old(renderFinishedSemaphores)
    {
      var f := currentFrame;
      var indexCount := scene.ri.numIndices;
      trace := [WaitFence(f)];
      if inFlightFences[f] == NullFence || inFlightFences[f] == Unsignaled {
        return Deadlock, trace;
      }
      inFlightFences := inFlightFences[f := Signaled];
      trace := trace + [AcquireImage(f)];
      if input.acquire == OutOfDate {
        trace := trace + [RecreateSwapchain];
        return AcquireOutOfDate, trace;
      } else if input.acquire != Success && input.acquire != Suboptimal {
        return Fatal(AcquireFailed), trace;
      }
      trace := trace + [ProcessInput, UpdateCamera(f)];
      if !input.beginOk {
        return Fatal(BeginFailed), trace;
      }
      trace := trace + [RecordCommands(f, indexCount)];
      if !input.endOk {
        return Fatal(EndFailed), trace;
      }
      inFlightFences := inFlightFences[f := Unsignaled];
      trace := trace + [ResetFence(f), Submit(f)];
      if !input.submitOk {
        return Fatal(SubmitFailed), trace;
      }
      inFlightFences := inFlightFences[f := Pending];
      trace := trace + [Present(f)];
      if input.present == OutOfDate || input.present == Suboptimal || framebufferResized {
        framebufferResized := false;
        trace := trace + [RecreateSwapchain];
      } else if input.present != Success {
        return Fatal(PresentFailed), trace;
      }
      currentFrame := (currentFrame + 1) % MaxFramesInFlight;
      return Completed, trace;
    }
  }
}
