/** The single-slot frame admission gate (`process`, `detectFaces` and the
    detector's success and failure callbacks) as a sequential state machine.

    Each `synchronized` block of the Kotlin class is one atomic step. Besides the
    busy flag and whether the background executor has ever been created, the
    state records the one piece of work the gate can have outstanding: a task
    queued on the executor, or a detection running in the engine. Callbacks
    can only fire for a detection that was started; an action that is not
    enabled in a state leaves it unchanged and emits nothing.

    The steps are parametrised by a `Policy`. `AsWritten` is the code's
    behaviour, in which the missing-executor path and the missing-pixel-data
    path leave the flag set forever. `ReleaseOnEarlyExit` is the corrected
    gate that clears the flag on those two paths as well. */
module AdmissionGate {
  import opened Frames
  import opened BoundsMapper

  /** Work the gate has handed on and not yet seen finish. */
  datatype Pending = NoTask | Queued(frame: Frame) | Detecting(frame: Frame)

  datatype Gate = Gate(isProcessing: bool, executorInitialized: bool, pending: Pending)

  datatype Cause = NotAttached | DetectorFailed

  /** Observable effects. `Dropped` marks a frame discarded because the gate
      was busy; the code does nothing visible for it. */
  datatype Event =
    | Dispatched(frame: Frame)
    | Dropped
    | Error(cause: Cause)
    | Delivered(faces: seq<FaceBounds>)

  /** What the environment can do next: attach the overlay (creating the
      executor), submit a frame, let the executor run its queued task, or
      have the engine complete the running detection. The overlay size is
      the one read when the results are mapped. */
  datatype Action =
    | Attach
    | Submit(frame: Frame)
    | RunQueued
    | DetectorSuccess(faces: seq<Candidate>, overlay: Size)
    | DetectorFailure

  datatype Policy = AsWritten | ReleaseOnEarlyExit

  datatype Outcome = Outcome(gate: Gate, events: seq<Event>)

  /** A fresh detector: idle, overlay never attached. */
  const Initial := Gate(false, false, NoTask)

  /** Submitted frames must be mappable (no zero dimension). */
  predicate Admissible(a: Action)
  {
    a.Submit? ==> Mappable(a.frame)
  }

  predicate AllAdmissible(actions: seq<Action>)
  {
    forall i :: 0 <= i < |actions| ==> Admissible(actions[i])
  }

  /** What every reachable state satisfies under either policy: outstanding
      work implies the flag is set, and its frame is mappable. */
  predicate Inv(g: Gate)
  {
    g.pending != NoTask ==> g.isProcessing && Mappable(g.pending.frame)
  }

  /** The intended invariant: busy exactly while work is outstanding. */
  predicate Consistent(g: Gate)
  {
    Inv(g) && (g.isProcessing <==> g.pending != NoTask)
  }

  /** Busy with nothing outstanding: no step can clear the flag any more. */
  predicate Wedged(g: Gate)
  {
    g.isProcessing && g.pending == NoTask
  }

  /** `process(frame)`. */
  function Process(g: Gate, f: Frame, policy: Policy): (r: Outcome)
    ensures g.isProcessing ==> r == Outcome(g, [Dropped])
    ensures !g.isProcessing && g.executorInitialized
        ==> r.gate.isProcessing && r.gate.pending == Queued(f) && r.events == [Dispatched(f)]
    ensures !g.isProcessing && !g.executorInitialized
        ==> r.gate.pending == g.pending && r.events == [Error(NotAttached)]
            && (r.gate.isProcessing <==> policy == AsWritten)
    ensures r.gate.executorInitialized == g.executorInitialized
  {
    if g.isProcessing then Outcome(g, [Dropped])
    else if g.executorInitialized then
      Outcome(g.(isProcessing := true, pending := Queued(f)), [Dispatched(f)])
    else
      Outcome(g.(isProcessing := policy == AsWritten), [Error(NotAttached)])
  }

  /** The executor runs `detectFaces` on the queued frame. A frame without
      pixel data returns at once and silently. */
  function DetectFaces(g: Gate, policy: Policy): (r: Outcome)
    ensures r.events == []
    ensures !g.pending.Queued? ==> r.gate == g
    ensures g.pending.Queued? && g.pending.frame.hasData
        ==> r.gate == g.(pending := Detecting(g.pending.frame))
    ensures g.pending.Queued? && !g.pending.frame.hasData
        ==> r.gate.pending == NoTask
            && (r.gate.isProcessing <==> policy == AsWritten && g.isProcessing)
    ensures r.gate.executorInitialized == g.executorInitialized
  {
    if !g.pending.Queued? then Outcome(g, [])
    else if g.pending.frame.hasData then Outcome(g.(pending := Detecting(g.pending.frame)), [])
    else
      var keep := policy == AsWritten && g.isProcessing;
      Outcome(g.(isProcessing := keep, pending := NoTask), [])
  }

  /** A completion callback: clear the flag first, then deliver. */
  function Complete(g: Gate, e: Event): (r: Outcome)
    requires g.pending.Detecting?
    ensures !r.gate.isProcessing && r.gate.pending == NoTask
    ensures r.gate.executorInitialized == g.executorInitialized
    ensures r.events == [e]
  {
    Outcome(g.(isProcessing := false, pending := NoTask), [e])
  }

  /** One atomic step of the gate. */
  function Step(g: Gate, a: Action, policy: Policy): (r: Outcome)
    requires Inv(g) && Admissible(a)
    ensures Inv(r.gate)
    ensures |r.events| <= 1
    ensures policy == ReleaseOnEarlyExit && Consistent(g) ==> Consistent(r.gate)
    ensures r.gate.isProcessing && !g.isProcessing ==> a.Submit?
    ensures !r.gate.isProcessing && g.isProcessing
        ==> a.DetectorSuccess? || a.DetectorFailure? || policy == ReleaseOnEarlyExit
  {
    match a
    case Attach => Outcome(g.(executorInitialized := true), [])
    case Submit(f) => Process(g, f, policy)
    case RunQueued => DetectFaces(g, policy)
    case DetectorSuccess(faces, overlay) =>
      if g.pending.Detecting? then Complete(g, Delivered(MapAll(faces, g.pending.frame, overlay)))
      else Outcome(g, [])
    case DetectorFailure =>
      if g.pending.Detecting? then Complete(g, Error(DetectorFailed)) else Outcome(g, [])
  }

  /** Runs a sequence of actions, collecting the events in order. */
  function Run(g: Gate, actions: seq<Action>, policy: Policy): (r: Outcome)
    requires Inv(g) && AllAdmissible(actions)
    ensures Inv(r.gate)
    ensures |r.events| <= |actions|
    ensures policy == ReleaseOnEarlyExit && Consistent(g) ==> Consistent(r.gate)
    decreases |actions|
  {
    if actions == [] then Outcome(g, [])
    else
      var o := Step(g, actions[0], policy);
      var rest := Run(o.gate, actions[1..], policy);
      Outcome(rest.gate, o.events + rest.events)
  }

  /** Number of frames submitted in a sequence of actions. */
  function Submissions(actions: seq<Action>): (n: nat)
  {
    if actions == [] then 0
    else (if actions[0].Submit? then 1 else 0) + Submissions(actions[1..])
  }

  predicate AllDropped(events: seq<Event>)
  {
    forall i :: 0 <= i < |events| ==> events[i] == Dropped
  }

  predicate Completes(a: Action)
  {
    a.DetectorSuccess? || a.DetectorFailure?
  }

  // ---------------------------------------------------------------------
  // One-step properties

  /** After either completion callback the flag is clear, so the next frame
      is dispatched as soon as an executor exists. */
  lemma NextSubmitAcceptedAfterCompletion(g: Gate, a: Action, f: Frame, policy: Policy)
    requires Inv(g) && g.pending.Detecting? && Admissible(a) && Completes(a)
    requires g.executorInitialized && Mappable(f)
    ensures var o := Step(g, a, policy);
            && !o.gate.isProcessing
            && Step(o.gate, Submit(f), policy).events == [Dispatched(f)]
  {
  }

  /** A successful detection delivers every detected face, mapped into
      overlay space and with its tracking identity, in the engine's order. */
  lemma SuccessDeliversMappedFaces(g: Gate, faces: seq<Candidate>, overlay: Size, policy: Policy)
    requires Inv(g) && g.pending.Detecting?
    ensures var o := Step(g, DetectorSuccess(faces, overlay), policy);
            && |o.events| == 1 && o.events[0].Delivered?
            && |o.events[0].faces| == |faces|
            && forall i :: 0 <= i < |faces| ==>
                 o.events[0].faces[i] == MapBounds(faces[i], g.pending.frame, overlay)
                 && o.events[0].faces[i].trackingId == faces[i].trackingId
  {
  }

  /** A detection failure is reported exactly once, after the flag is clear. */
  lemma FailureReportsOnce(g: Gate, policy: Policy)
    requires Inv(g) && g.pending.Detecting?
    ensures var o := Step(g, DetectorFailure, policy);
            !o.gate.isProcessing && o.events == [Error(DetectorFailed)]
  {
  }

  /** As written, submitting while no executor exists reports the error and
      leaves the gate busy with nothing outstanding. */
  lemma NoExecutorSubmitWedges(g: Gate, f: Frame)
    requires Inv(g) && !g.isProcessing && !g.executorInitialized
    ensures var o := Process(g, f, AsWritten);
            o.events == [Error(NotAttached)] && Wedged(o.gate)
  {
  }

  /** As written, a dispatched frame without pixel data returns early and
      leaves the gate busy with nothing outstanding, silently. */
  lemma MissingDataWedges(g: Gate)
    requires Inv(g) && g.pending.Queued? && !g.pending.frame.hasData
    ensures var o := DetectFaces(g, AsWritten);
            o.events == [] && Wedged(o.gate)
  {
  }

  // ---------------------------------------------------------------------
  // Properties of runs

  /** Under either policy, a wedged gate stays wedged whatever happens next,
      and every later frame is dropped: no dispatch, no error, no delivery. */
  lemma {:induction false} WedgedDropsEverything(g: Gate, actions: seq<Action>, policy: Policy)
    requires Wedged(g) && AllAdmissible(actions)
    ensures var o := Run(g, actions, policy);
            && Wedged(o.gate)
            && AllDropped(o.events)
            && |o.events| == Submissions(actions)
    decreases |actions|
  {
    if actions != [] {
      var o := Step(g, actions[0], policy);
      assert Wedged(o.gate) && AllDropped(o.events);
      assert |o.events| == (if actions[0].Submit? then 1 else 0);
      assert AllAdmissible(actions[1..]) by {
        forall i | 0 <= i < |actions[1..]| ensures Admissible(actions[1..][i]) {
          assert actions[1..][i] == actions[i + 1];
        }
      }
      WedgedDropsEverything(o.gate, actions[1..], policy);
    }
  }

  /** Admission exclusivity: as written, while a frame is being processed and
      no completion callback fires, every submitted frame is dropped. */
  lemma {:induction false} BusyDropsUntilCompletion(g: Gate, actions: seq<Action>)
    requires Inv(g) && g.isProcessing && AllAdmissible(actions)
    requires forall i :: 0 <= i < |actions| ==> !Completes(actions[i])
    ensures var o := Run(g, actions, AsWritten);
            && o.gate.isProcessing
            && AllDropped(o.events)
            && |o.events| == Submissions(actions)
    decreases |actions|
  {
    if actions != [] {
      var o := Step(g, actions[0], AsWritten);
      assert o.gate.isProcessing && AllDropped(o.events);
      assert |o.events| == (if actions[0].Submit? then 1 else 0);
      assert forall i :: 0 <= i < |actions[1..]| ==> actions[1..][i] == actions[i + 1];
      BusyDropsUntilCompletion(o.gate, actions[1..]);
    }
  }

  /** Before the overlay is attached nothing is ever dispatched, under
      either policy, however many frames arrive. */
  lemma {:induction false} UnattachedNeverDispatches(g: Gate, actions: seq<Action>, policy: Policy)
    requires Inv(g) && !g.executorInitialized && g.pending == NoTask && AllAdmissible(actions)
    requires forall i :: 0 <= i < |actions| ==> !actions[i].Attach?
    ensures var o := Run(g, actions, policy);
            && o.gate.pending == NoTask && !o.gate.executorInitialized
            && forall i :: 0 <= i < |o.events| ==> !o.events[i].Dispatched?
    decreases |actions|
  {
    if actions != [] {
      var o := Step(g, actions[0], policy);
      assert o.gate.pending == NoTask && !o.gate.executorInitialized;
      assert forall i :: 0 <= i < |actions[1..]| ==> actions[1..][i] == actions[i + 1];
      UnattachedNeverDispatches(o.gate, actions[1..], policy);
    }
  }

  /** The corrected gate reports the missing executor for every frame that
      arrives before the overlay is attached, not only the first. */
  lemma {:induction false} ReleasingGateRejectsUntilAttached(g: Gate, actions: seq<Action>)
    requires Consistent(g) && !g.executorInitialized && g.pending == NoTask && AllAdmissible(actions)
    requires forall i :: 0 <= i < |actions| ==> !actions[i].Attach?
    ensures var o := Run(g, actions, ReleaseOnEarlyExit);
            && |o.events| == Submissions(actions)
            && forall i :: 0 <= i < |o.events| ==> o.events[i] == Error(NotAttached)
    decreases |actions|
  {
    if actions != [] {
      var o := Step(g, actions[0], ReleaseOnEarlyExit);
      assert o.gate == g;
      assert o.events == if actions[0].Submit? then [Error(NotAttached)] else [];
      assert forall i :: 0 <= i < |actions[1..]| ==> actions[1..][i] == actions[i + 1];
      ReleasingGateRejectsUntilAttached(g, actions[1..]);
    }
  }

  /** The corrected gate never wedges: from any consistent state, whatever
      happens, the flag is set only while work is outstanding. */
  lemma ReleasingGateNeverWedges(g: Gate, actions: seq<Action>)
    requires Consistent(g) && AllAdmissible(actions)
    ensures !Wedged(Run(g, actions, ReleaseOnEarlyExit).gate)
  {
  }

  /** The corrected gate admits the next frame whenever nothing is
      outstanding and an executor exists. */
  lemma ReleasingGateAcceptsWhenIdle(g: Gate, actions: seq<Action>, f: Frame)
    requires Consistent(g) && AllAdmissible(actions) && Mappable(f)
    ensures var o := Run(g, actions, ReleaseOnEarlyExit);
            o.gate.pending == NoTask && o.gate.executorInitialized
            ==> Process(o.gate, f, ReleaseOnEarlyExit).events == [Dispatched(f)]
  {
  }

  // ---------------------------------------------------------------------
  // The two wedging paths, shown on concrete runs

  /** A run of three actions is its three steps in turn. */
  lemma UnrollThree(g: Gate, a: Action, b: Action, c: Action, policy: Policy)
    requires Inv(g) && Admissible(a) && Admissible(b) && Admissible(c)
    ensures var o1 := Step(g, a, policy);
            var o2 := Step(o1.gate, b, policy);
            var o3 := Step(o2.gate, c, policy);
            Run(g, [a, b, c], policy) == Outcome(o3.gate, o1.events + o2.events + o3.events)
  {
    var actions := [a, b, c];
    assert actions[1..] == [b, c];
    assert [b, c][1..] == [c];
    assert [c][1..] == [];
    var o1 := Step(g, a, policy);
    var o2 := Step(o1.gate, b, policy);
    var o3 := Step(o2.gate, c, policy);
    assert Run(o2.gate, [c], policy) == Outcome(o3.gate, o3.events + []);
    assert o1.events + (o2.events + (o3.events + [])) == o1.events + o2.events + o3.events;
  }

  /** Submitting before the overlay is attached, then attaching and
      submitting again: as written the second frame is dropped; the
      corrected gate dispatches it. */
  lemma ExampleSubmitBeforeAttach(f: Frame)
    requires Mappable(f)
    ensures Run(Initial, [Submit(f), Attach, Submit(f)], AsWritten).events
            == [Error(NotAttached), Dropped]
    ensures Run(Initial, [Submit(f), Attach, Submit(f)], ReleaseOnEarlyExit).events
            == [Error(NotAttached), Dispatched(f)]
  {
    UnrollThree(Initial, Submit(f), Attach, Submit(f), AsWritten);
    UnrollThree(Initial, Submit(f), Attach, Submit(f), ReleaseOnEarlyExit);
  }

  /** A frame without pixel data, then a good frame: as written the good
      frame is dropped; the corrected gate dispatches it. */
  lemma ExampleFrameWithoutData(empty: Frame, f: Frame)
    requires Mappable(empty) && !empty.hasData && Mappable(f)
    ensures var g := Initial.(executorInitialized := true);
            Run(g, [Submit(empty), RunQueued, Submit(f)], AsWritten).events
            == [Dispatched(empty), Dropped]
    ensures var g := Initial.(executorInitialized := true);
            Run(g, [Submit(empty), RunQueued, Submit(f)], ReleaseOnEarlyExit).events
            == [Dispatched(empty), Dispatched(f)]
  {
    var g := Initial.(executorInitialized := true);
    UnrollThree(g, Submit(empty), RunQueued, Submit(f), AsWritten);
    UnrollThree(g, Submit(empty), RunQueued, Submit(f), ReleaseOnEarlyExit);
  }
}
