/**
 * The device-selection transition `open_camera` (src/main.rs), which runs
 * once per frame of the host application over the `CurrentDevice` and
 * `DeviceThread` resources and the queue of `CameraChanged` messages.
 *
 * With no message it does nothing. Otherwise it first stops the registered
 * capture thread (raises its stop bit, then waits until the thread has
 * finished), takes the id of the LAST queued message, opens that device and
 * negotiates a four-buffer capture stream; either failure resets both
 * resources to `None`, and success installs the id and a fresh session.
 *
 * `Manager` is the value-level view (with the ghost list of every session
 * ever spawned, to state that at most one capture thread is alive), and
 * `DeviceManager` the stateful object whose `OpenCamera` is proved to
 * follow `Select`.
 */
module DeviceSelection {
  import opened Wrappers
  import opened FrameSlot
  import opened CaptureWorker

  /** A `usize` device index. */
  type DeviceId = nat

  /** A spawned session: its device, whether its stop bit is set, whether its thread has finished. */
  datatype SessionRec = SessionRec(device: DeviceId, stopRaised: bool, finished: bool)

  /**
   * `current` is `CurrentDevice`, `thread` the position in `sessions` of the
   * session held by `DeviceThread`, and `sessions` every session spawned so far.
   */
  datatype Manager = Manager(current: Option<DeviceId>, thread: Option<nat>, sessions: seq<SessionRec>)

  /** What `Device::new(id)` and `MmapStream::with_buffers(&dev, VideoCapture, 4)` did. */
  datatype Outcome = OpenFailed | StreamFailed | Streaming

  /** Both resources start as `Default::default()`, i.e. `None`. */
  const Start: Manager := Manager(None, None, [])

  /** The registered session is the newest one. */
  ghost predicate Wf(m: Manager)
  {
    m.thread.Some? ==> m.thread.value == |m.sessions| - 1
  }

  /**
   * A device is current exactly when a session is registered, for that
   * device. `open_camera` leaves this behind whenever it acts on a message;
   * a click in the device chooser breaks it until then.
   */
  ghost predicate Tracking(m: Manager)
  {
    && Wf(m)
    && (m.thread.Some? <==> m.current.Some?)
    && (m.thread.Some? ==> m.sessions[m.thread.value].device == m.current.value)
  }

  /**
   * At most one capture thread is alive: every session other than the
   * registered one has been told to stop and has finished, and the
   * registered one has not been told to stop.
   */
  ghost predicate OneLiveSession(m: Manager)
  {
    && Wf(m)
    && (forall i :: 0 <= i < |m.sessions| && m.thread != Some(i) ==> m.sessions[i].stopRaised && m.sessions[i].finished)
    && (m.thread.Some? ==> !m.sessions[m.thread.value].stopRaised)
  }

  /** Lines 67-70: the registered session's stop bit is set and its thread has finished. */
  function Retire(m: Manager): (r: Manager)
    requires Wf(m)
    ensures r.current == m.current && r.thread == m.thread && |r.sessions| == |m.sessions|
    ensures forall i :: 0 <= i < |m.sessions| && m.thread != Some(i) ==> r.sessions[i] == m.sessions[i]
    ensures m.thread.Some? ==> r.sessions[m.thread.value] == SessionRec(m.sessions[m.thread.value].device, true, true)
  {
    match m.thread
    case None => m
    case Some(t) => m.(sessions := m.sessions[t := m.sessions[t].(stopRaised := true, finished := true)])
  }

  /** Lines 72-121, once the old thread is stopped: the error closure resets both resources, success registers a new session. */
  function Install(sessions: seq<SessionRec>, id: DeviceId, o: Outcome): (r: Manager)
    ensures Tracking(r)
  {
    if o == Streaming then Manager(Some(id), Some(|sessions|), sessions + [SessionRec(id, false, false)])
    else Manager(None, None, sessions)
  }

  /** Lines 63-121: one run of `open_camera` over the queued ids `pending`. */
  function Select(m: Manager, pending: seq<DeviceId>, o: Outcome): (r: Manager)
    requires Wf(m)
    ensures Wf(r)
    ensures pending != [] ==> Tracking(r)
  {
    if pending == [] then m else Install(Retire(m).sessions, pending[|pending| - 1], o)
  }

  /** Once the registered thread is stopped, every thread ever spawned has been told to stop and has finished. */
  lemma RetireStopsAll(m: Manager)
    requires OneLiveSession(m)
    ensures forall i :: 0 <= i < |m.sessions| ==> Retire(m).sessions[i].stopRaised && Retire(m).sessions[i].finished
  {
  }

  /**
   * The registered thread ends on its own after a fetch error. Nothing
   * notices: the session stays registered and the device current until the
   * next selection stops it.
   */
  function WorkerEnded(m: Manager): (r: Manager)
    requires Wf(m)
    ensures Wf(r)
    ensures r.current == m.current && r.thread == m.thread && |r.sessions| == |m.sessions|
    ensures forall i :: 0 <= i < |m.sessions| ==> r.sessions[i].device == m.sessions[i].device && r.sessions[i].stopRaised == m.sessions[i].stopRaised
    ensures m.thread.Some? ==> r.sessions[m.thread.value].finished
    ensures forall i :: 0 <= i < |m.sessions| && m.thread != Some(i) ==> r.sessions[i] == m.sessions[i]
  {
    match m.thread
    case None => m
    case Some(t) => m.(sessions := m.sessions[t := m.sessions[t].(finished := true)])
  }

  /**
   * Lines 219-242 (`choose_device`): clicking a device other than the
   * highlighted current one makes it current at once when `Device::new(id)`
   * succeeds (and queues `CameraChanged(id)`); the sessions are not touched.
   */
  function Click(m: Manager, id: DeviceId, opens: bool): (r: Manager)
    requires Wf(m)
    ensures Wf(r) && r.thread == m.thread && r.sessions == m.sessions
    ensures r.current == if opens && m.current != Some(id) then Some(id) else m.current
  {
    if m.current == Some(id) || !opens then m else m.(current := Some(id))
  }

  /** What can happen between two observations of the manager. */
  datatype Step = Tick(pending: seq<DeviceId>, outcome: Outcome) | WorkerFailed | Clicked(id: DeviceId, opens: bool)

  function Next(m: Manager, s: Step): (r: Manager)
    requires Wf(m)
    ensures Wf(r)
  {
    match s
    case Tick(pending, o) => Select(m, pending, o)
    case WorkerFailed => WorkerEnded(m)
    case Clicked(id, opens) => Click(m, id, opens)
  }

  /** The manager after the steps `ss`, from `m`. */
  function Steps(m: Manager, ss: seq<Step>): (r: Manager)
    requires Wf(m)
    ensures Wf(r)
    decreases |ss|
  {
    if ss == [] then m else Next(Steps(m, ss[..|ss| - 1]), ss[|ss| - 1])
  }

  /** An empty message queue leaves both resources, and every session, as they were. */
  lemma NothingPending(m: Manager, o: Outcome)
    requires Wf(m)
    ensures Select(m, [], o) == m
  {
  }

  /** Only the last queued id is acted on. */
  lemma LastMessageWins(m: Manager, p: seq<DeviceId>, q: seq<DeviceId>, o: Outcome)
    requires Wf(m) && p != [] && q != [] && p[|p| - 1] == q[|q| - 1]
    ensures Select(m, p, o) == Select(m, q, o)
  {
  }

  /** A failed open or stream negotiation leaves no device and no session, and the old thread stopped. */
  lemma FailureClearsBoth(m: Manager, pending: seq<DeviceId>, o: Outcome)
    requires OneLiveSession(m) && pending != [] && o != Streaming
    ensures Select(m, pending, o).current == None && Select(m, pending, o).thread == None
    ensures Select(m, pending, o).sessions == Retire(m).sessions
    ensures forall i :: 0 <= i < |m.sessions| ==> Select(m, pending, o).sessions[i].finished
  {
  }

  /**
   * Success stops and retires the old session, leaves the older ones alone,
   * and registers exactly one new session, for the last id, with its stop bit clear.
   */
  lemma SuccessInstalls(m: Manager, pending: seq<DeviceId>)
    requires Wf(m) && pending != []
    ensures var r := Select(m, pending, Streaming);
      && r.current == Some(pending[|pending| - 1])
      && r.thread == Some(|m.sessions|)
      && r.sessions == Retire(m).sessions + [SessionRec(pending[|pending| - 1], false, false)]
      && (m.thread.Some? ==> r.sessions[m.thread.value].stopRaised && r.sessions[m.thread.value].finished)
      && (forall i :: 0 <= i < |m.sessions| && m.thread != Some(i) ==> r.sessions[i] == m.sessions[i])
  {
  }

  /** Registering a fresh session after every earlier one has stopped leaves one thread alive. */
  lemma SpawnKeepsOneLive(sessions: seq<SessionRec>, id: DeviceId)
    requires forall i :: 0 <= i < |sessions| ==> sessions[i].stopRaised && sessions[i].finished
    ensures OneLiveSession(Manager(Some(id), Some(|sessions|), sessions + [SessionRec(id, false, false)]))
  {
  }

  /** Each step keeps at most one capture thread alive. */
  lemma StepKeepsOneLive(m: Manager, s: Step)
    requires OneLiveSession(m)
    ensures OneLiveSession(Next(m, s))
  {
    match s
    case Tick(pending, o) =>
    case WorkerFailed =>
      var r := WorkerEnded(m);
      forall i | 0 <= i < |r.sessions| && r.thread != Some(i)
        ensures r.sessions[i].stopRaised && r.sessions[i].finished
      {
        assert r.sessions[i] == m.sessions[i];
      }
    case Clicked(id, opens) =>
  }

  /** Whatever the sequence of selections, outcomes and thread failures, at most one capture thread is ever alive. */
  lemma {:induction false} AlwaysOneLive(ss: seq<Step>)
    ensures OneLiveSession(Steps(Start, ss))
    decreases |ss|
  {
    if ss != [] {
      AlwaysOneLive(ss[..|ss| - 1]);
      StepKeepsOneLive(Steps(Start, ss[..|ss| - 1]), ss[|ss| - 1]);
    }
  }

  /**
   * A click on another device while one streams leaves `CurrentDevice` naming
   * a device no thread streams; the next pass of `open_camera`, which receives
   * the queued id, pairs them again, or clears both.
   */
  lemma ClickThenOpen(m: Manager, id: DeviceId, o: Outcome)
    requires Tracking(m) && m.thread.Some? && m.current != Some(id)
    ensures !Tracking(Click(m, id, true))
    ensures Tracking(Select(Click(m, id, true), [id], o))
    ensures Select(Click(m, id, true), [id], o).current == if o == Streaming then Some(id) else None
  {
  }

  /** Selecting a device that cannot be opened, from the start, leaves no device and starts no thread. */
  lemma OpenFailureStartsNothing(id: DeviceId)
    ensures Select(Start, [id], OpenFailed) == Start
  {
  }

  /** After selecting `a` and then `b`, exactly one thread is alive and it streams `b`; `a`'s has finished. */
  lemma SwitchLeavesOneWorker(a: DeviceId, b: DeviceId)
    ensures var r := Select(Select(Start, [a], Streaming), [b], Streaming);
      && r.current == Some(b)
      && r.sessions == [SessionRec(a, true, true), SessionRec(b, false, false)]
  {
  }

  /**
   * One capture session: the shared stop bit and the thread's join handle,
   * i.e. whether the thread has finished and with what result.
   */
  class Session {
    const device: DeviceId
    const stop: StopBit
    const slot: LastFrame
    var finished: bool
    var result: Option<Exit>

    ghost predicate Valid()
      reads this, stop
    {
      && (finished <==> result.Some?)
      && (!finished ==> !stop.raised)
    }

    function Record(): SessionRec
      reads this, stop
    {
      SessionRec(device, stop.raised, finished)
    }

    /** Lines 100 and 121: a fresh stop bit, cleared, and a thread that has just been spawned. */
    constructor (device: DeviceId, slot: LastFrame)
      ensures Valid() && fresh(stop)
      ensures this.device == device && this.slot == slot
      ensures Record() == SessionRec(device, false, false) && result == None
    {
      this.device := device;
      this.slot := slot;
      stop := new StopBit();
      finished := false;
      result := None;
    }

    /** The thread running on its own, with its stop bit clear, while the device delivers `fetches`. */
    method Progress(fetches: seq<Fetch>)
      requires Valid()
      modifies this, stop, slot
      ensures Valid() && stop.raised == old(stop.raised)
      ensures old(finished) ==> finished && result == old(result) && slot.State() == old(slot.State())
      ensures !old(finished) ==>
        && slot.State() == AfterPublishes(old(slot.State()), Run(fetches, |fetches|).published)
        && finished == (Run(fetches, |fetches|).exit != Running)
        && (finished ==> result == Some(Run(fetches, |fetches|).exit))
    {
      if finished {
        return;
      }
      var exit := Work(slot, stop, fetches, |fetches|);
      if exit != Running {
        finished := true;
        result := Some(exit);
      }
    }

    /**
     * Lines 67-70: set the stop bit, then spin until the thread has finished.
     * A thread still running is blocked in `stream.next()`; `inFlight` is what
     * that fetch returns, after which the thread's next check sees the bit.
     * The join handle's result is kept but, as in the source, never inspected.
     */
    method StopAndWait(inFlight: Fetch)
      requires Valid()
      modifies this, stop, slot
      ensures Valid() && finished && stop.raised
      ensures Record() == old(Record()).(stopRaised := true, finished := true)
      ensures old(finished) ==> result == old(result) && slot.State() == old(slot.State())
      ensures !old(finished) ==>
        && result == Some(Run([inFlight], 0).exit)
        && slot.State() == AfterPublishes(old(slot.State()), Run([inFlight], 0).published)
    {
      stop.Raise();
      if !finished {
        var exit := Work(slot, stop, [inFlight], 0);
        finished := true;
        result := Some(exit);
      }
    }
  }

  /** Each call to `Device::new` made by `open_camera`, with whether every thread spawned before it had finished at that moment. */
  datatype OpenAttempt = OpenAttempt(device: DeviceId, allStopped: bool)

  /** The `CurrentDevice`, `DeviceThread` and `CameraImageRaw` resources. */
  class DeviceManager {
    var current: Option<DeviceId>
    var thread: Option<Session>
    const frame: LastFrame
    ghost var history: seq<Session>
    ghost var opens: seq<OpenAttempt>

    ghost function Bits(): set<StopBit>
      reads this
    {
      set s | s in history :: s.stop
    }

    /** What the registered session may change. */
    ghost function Live(): set<object>
      reads this
    {
      if thread.Some? then {thread.value as object, thread.value.stop as object} else {}
    }

    ghost function Model(): Manager
      reads this, history, Bits()
    {
      var h, bits := history, Bits();
      Manager(current, if thread.Some? && h != [] then Some(|h| - 1) else None,
        seq(|h|, i requires 0 <= i < |h| reads h, bits => h[i].Record()))
    }

    /** The objects are those the model describes; the single-live-session property aside. */
    ghost predicate Coherent()
      reads this, history, Bits()
    {
      && (forall i :: 0 <= i < |history| ==> history[i].slot == frame && history[i].Valid())
      && (forall i, j :: 0 <= i < j < |history| ==> history[i] != history[j] && history[i].stop != history[j].stop)
      && (thread.Some? ==> |history| > 0 && thread.value == history[|history| - 1])
      && Wf(Model())
    }

    ghost predicate Valid()
      reads this, history, Bits()
    {
      Coherent() && OneLiveSession(Model())
    }

    /** Every thread spawned so far has been told to stop and has finished. */
    ghost predicate AllRetired()
      reads this, history, Bits()
    {
      forall i :: 0 <= i < |history| ==> history[i].stop.raised && history[i].finished
    }

    constructor ()
      ensures Valid() && Model() == Start && fresh(frame) && frame.State() == Initial && opens == []
    {
      current := None;
      thread := None;
      frame := new LastFrame();
      history := [];
      opens := [];
    }

    /**
     * Lines 52-122. `inFlight` is what the registered thread's pending fetch
     * returns while this call waits for it; `o` is what opening the last
     * queued device and negotiating its stream did.
     */
    method OpenCamera(pending: seq<DeviceId>, inFlight: Fetch, o: Outcome)
      requires Valid()
      modifies this, frame, Live()
      ensures Valid()
      ensures Model() == Select(old(Model()), pending, o)
      ensures pending == [] ==> opens == old(opens) && frame.State() == old(frame.State())
      ensures pending != [] ==> opens == old(opens) + [OpenAttempt(pending[|pending| - 1], true)]
      ensures pending != [] && old(thread).Some? && !old(thread.value.finished) ==>
        frame.State() == AfterPublishes(old(frame.State()), Run([inFlight], 0).published)
      ensures pending != [] && (old(thread).None? || old(thread.value.finished)) ==> frame.State() == old(frame.State())
      ensures thread.Some? && pending != [] ==> fresh(thread.value) && thread.value.slot == frame
    {
      if pending == [] {
        return;
      }
      ghost var before := Model();
      StopRegistered(inFlight);
      ghost var stopped := Model();
      assert stopped == Retire(before);
      var id := pending[|pending| - 1];
      ghost var allStopped := AllRetired();
      opens := opens + [OpenAttempt(id, allStopped)];
      assert Model() == stopped;
      Register(id, o);
    }

    /** Lines 67-70: tell the registered thread to stop and wait until it has finished. */
    method StopRegistered(inFlight: Fetch)
      requires Valid()
      modifies frame, Live()
      ensures Coherent() && AllRetired()
      ensures Model() == Retire(old(Model()))
      ensures thread == old(thread) && current == old(current) && history == old(history) && opens == old(opens)
      ensures thread.Some? && !old(thread.value.finished) ==>
        frame.State() == AfterPublishes(old(frame.State()), Run([inFlight], 0).published)
      ensures thread.None? || old(thread.value.finished) ==> frame.State() == old(frame.State())
    {
      ghost var before := Model();
      RetireStopsAll(before);
      if thread.Some? {
        var s := thread.value;
        s.StopAndWait(inFlight);
        forall i | 0 <= i < |history| - 1
          ensures history[i].Record() == before.sessions[i]
        {
          assert history[i] != s;
        }
        assert Model().sessions == Retire(before).sessions;
      }
      forall i | 0 <= i < |history|
        ensures history[i].stop.raised && history[i].finished
      {
        assert history[i].Record() == Model().sessions[i];
      }
    }

    /** Lines 72-121 after the teardown: reset both resources on failure, register a fresh session on success. */
    method Register(id: DeviceId, o: Outcome)
      requires Coherent() && AllRetired()
      modifies this
      ensures Valid()
      ensures Model() == Install(old(Model()).sessions, id, o)
      ensures opens == old(opens)
      ensures thread.Some? ==> fresh(thread.value) && thread.value.slot == frame
    {
      if o == Streaming {
        SpawnSession(id);
      } else {
        ResetResources();
      }
    }

    /** The `f_error` closure, lines 72-76: both resources back to `Default::default()`. */
    method ResetResources()
      requires Coherent() && AllRetired()
      modifies this
      ensures Valid()
      ensures Model() == Manager(None, None, old(Model()).sessions)
      ensures history == old(history) && opens == old(opens)
    {
      current := None;
      thread := None;
    }

    /** Lines 99-121: a fresh stop bit, a spawned thread, and `Some(id)` as the current device. */
    method SpawnSession(id: DeviceId)
      requires Coherent() && AllRetired()
      modifies this
      ensures Valid()
      ensures Model() == Manager(Some(id), Some(|old(history)|), old(Model()).sessions + [SessionRec(id, false, false)])
      ensures opens == old(opens)
      ensures thread.Some? && fresh(thread.value) && thread.value.slot == frame
    {
      ghost var before := Model();
      assert forall i :: 0 <= i < |before.sessions| ==> before.sessions[i].stopRaised && before.sessions[i].finished;
      var s := new Session(id, frame);
      current := Some(id);
      thread := Some(s);
      history := history + [s];
      assert forall i :: 0 <= i < |history| - 1 ==> history[i].Record() == before.sessions[i];
      assert Model() == Manager(Some(id), Some(|before.sessions|), before.sessions + [SessionRec(id, false, false)]);
      SpawnKeepsOneLive(before.sessions, id);
    }

    /**
     * Lines 219-226 (`choose_device`'s `set_camera`): a click on another
     * device makes it current when `opens` (its `Device::new` succeeded);
     * the registered thread keeps streaming the old device.
     */
    method ChooseDevice(id: DeviceId, opens: bool)
      requires Valid()
      modifies this
      ensures Valid()
      ensures Model() == Click(old(Model()), id, opens)
      ensures thread == old(thread) && history == old(history) && this.opens == old(this.opens)
    {
      ghost var before := Model();
      if current != Some(id) && opens {
        current := Some(id);
        assert Model().sessions == before.sessions;
      }
    }

    /** The registered thread running between two calls of `OpenCamera`. */
    method Stream(fetches: seq<Fetch>)
      requires Valid()
      modifies frame, Live()
      ensures Valid()
      ensures Model() ==
        if thread.Some? && !old(thread.value.finished) && Run(fetches, |fetches|).exit != Running
        then WorkerEnded(old(Model())) else old(Model())
      ensures thread.Some? && !old(thread.value.finished) ==>
        frame.State() == AfterPublishes(old(frame.State()), Run(fetches, |fetches|).published)
      ensures thread.None? || old(thread.value.finished) ==> frame.State() == old(frame.State())
    {
      if thread.Some? {
        ghost var before := Model();
        var s := thread.value;
        ghost var ends := !s.finished && Run(fetches, |fetches|).exit != Running;
        s.Progress(fetches);
        forall i | 0 <= i < |history| - 1
          ensures history[i].Record() == before.sessions[i]
        {
          assert history[i] != s;
        }
        if ends {
          assert Model().sessions == WorkerEnded(before).sessions;
          StepKeepsOneLive(before, WorkerFailed);
        } else {
          assert Model().sessions == before.sessions;
        }
      }
    }
  }
}
