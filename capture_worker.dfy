/**
 * The capture thread spawned by `open_camera` (the `spawn` closure of
 * src/main.rs): fetch a frame from the device, publish it into the shared
 * slot, and only then look at the stop bit; a fetch error ends the thread.
 *
 * The device's blocking `stream.next()` is given as the sequence of outcomes
 * it will deliver. The stop bit is written by another thread; since the
 * worker reads it only at the check after each publish and the bit is only
 * ever set, every interleaving is described by `raiseAt`, the index of the
 * first check that sees it set.
 */
module CaptureWorker {
  import opened FrameSlot

  /** One outcome of `stream.next()`: the buffer of a captured frame, or an I/O error. */
  datatype Fetch = Captured(frame: Frame) | FetchFailed(code: nat)

  /**
   * How the loop ends: `Ok(())` after seeing the stop bit, `Err` from a fetch,
   * or still looping when the given outcomes run out.
   */
  datatype Exit = Stopped | Errored(code: nat) | Running

  /** The frames the loop published, in order, and how it ended. */
  datatype Trace = Trace(published: seq<Frame>, exit: Exit)

  /**
   * The loop over `fetches` when the check after iteration `raiseAt` is the
   * first to see the stop bit set. Its contract, together with
   * `RunPublishesFetched`, is the whole behaviour: it publishes the captured
   * frames in fetch order, at most one beyond the `raiseAt` frames published
   * before the bit became visible, and stops on the first error without
   * publishing anything for it.
   */
  function Run(fetches: seq<Fetch>, raiseAt: nat): (t: Trace)
    ensures |t.published| <= |fetches| && |t.published| <= raiseAt + 1
    ensures t.exit == Stopped <==> |t.published| == raiseAt + 1
    ensures t.exit.Errored? ==> |t.published| < |fetches| && fetches[|t.published|] == FetchFailed(t.exit.code)
    ensures t.exit == Running ==> |t.published| == |fetches| <= raiseAt
    decreases |fetches|
  {
    if fetches == [] then Trace([], Running)
    else
      match fetches[0]
      case FetchFailed(e) => Trace([], Errored(e))
      case Captured(f) =>
        if raiseAt == 0 then Trace([f], Stopped)
        else
          var rest := Run(fetches[1..], raiseAt - 1);
          Trace([f] + rest.published, rest.exit)
  }

  /** The shared `Arc<Mutex<bool>>` stop bit; it starts false and is only ever set. */
  class StopBit {
    var raised: bool

    constructor ()
      ensures !raised
    {
      raised := false;
    }

    method Raise()
      modifies this
      ensures raised
    {
      raised := true;
    }
  }

  /**
   * Lines 105-117. `raiseAt` places the other thread's store to the stop bit:
   * it becomes visible at that check. A bit already set on entry is seen by
   * the first check.
   */
  method Work(slot: LastFrame, stop: StopBit, fetches: seq<Fetch>, raiseAt: nat) returns (exit: Exit)
    modifies slot, stop
    ensures exit == Run(fetches, if old(stop.raised) then 0 else raiseAt).exit
    ensures slot.State() == AfterPublishes(old(slot.State()), Run(fetches, if old(stop.raised) then 0 else raiseAt).published)
    ensures stop.raised <==> old(stop.raised) || exit == Stopped
  {
    var visible := if stop.raised then 0 else raiseAt;
    ghost var whole := Run(fetches, visible);
    var i := 0;
    ghost var published: seq<Frame> := [];
    assert fetches[i..] == fetches;
    while i < |fetches|
      invariant i <= |fetches| && i <= visible
      invariant stop.raised ==> visible == 0 && old(stop.raised)
      invariant stop.raised == old(stop.raised)
      invariant whole.published == published + Run(fetches[i..], visible - i).published
      invariant whole.exit == Run(fetches[i..], visible - i).exit
      invariant slot.State() == AfterPublishes(old(slot.State()), published)
    {
      ghost var rest := Run(fetches[i..], visible - i);
      match fetches[i] {
        case FetchFailed(e) =>
          // `?` returns the error; the slot is not touched
          assert rest == Trace([], Errored(e));
          return Errored(e);
        case Captured(buf) =>
          RunCaptured(fetches[i..], visible - i);
          slot.Publish(buf);
          ghost var before := published;
          published := published + [buf];
          if i == visible {
            stop.Raise();
          }
          if stop.raised {
            assert rest == Trace([buf], Stopped);
            return Stopped;
          }
          assert fetches[i..][1..] == fetches[i + 1..];
          ghost var next := Run(fetches[i + 1..], visible - (i + 1));
          assert rest.published == [buf] + next.published;
          SeqAssoc(before, [buf], next.published);
          i := i + 1;
      }
    }
    assert fetches[i..] == [];
    return Running;
  }

  /** Proof helper: concatenation regrouped. */
  lemma SeqAssoc<T>(a: seq<T>, b: seq<T>, c: seq<T>)
    ensures a + (b + c) == (a + b) + c
  {
  }

  /** One iteration of the loop that captured a frame and did not see the stop bit. */
  lemma RunCaptured(fetches: seq<Fetch>, raiseAt: nat)
    requires fetches != [] && fetches[0].Captured?
    ensures raiseAt == 0 ==> Run(fetches, raiseAt) == Trace([fetches[0].frame], Stopped)
    ensures raiseAt > 0 ==> Run(fetches, raiseAt).published == [fetches[0].frame] + Run(fetches[1..], raiseAt - 1).published
    ensures raiseAt > 0 ==> Run(fetches, raiseAt).exit == Run(fetches[1..], raiseAt - 1).exit
  {
  }

  /** The loop publishes exactly the frames it fetched, in fetch order: none is dropped, reordered or altered. */
  lemma {:induction false} RunPublishesFetched(fetches: seq<Fetch>, raiseAt: nat, i: nat)
    requires i < |Run(fetches, raiseAt).published|
    ensures fetches[i] == Captured(Run(fetches, raiseAt).published[i])
    decreases |fetches|
  {
    if i > 0 {
      RunPublishesFetched(fetches[1..], raiseAt - 1, i - 1);
    }
  }

  /** Cancellation between fetches: once the bit is visible, the loop ends by the next check. */
  lemma StopEndsLoop(fetches: seq<Fetch>, raiseAt: nat)
    requires raiseAt < |fetches|
    ensures Run(fetches, raiseAt).exit != Running
  {
  }

  /** The frame in hand is published before the bit is consulted: a stopped loop's last publish is the frame it fetched at that check. */
  lemma PublishBeforeCheck(fetches: seq<Fetch>, raiseAt: nat)
    requires Run(fetches, raiseAt).exit == Stopped
    ensures fetches[raiseAt] == Captured(Run(fetches, raiseAt).published[raiseAt])
  {
  }

  /**
   * A fetch error at `n`, before the bit is seen, ends the loop with that error,
   * and the slot keeps the frame of fetch `n - 1` (or what it held before).
   */
  lemma ErrorKeepsLastFrame(s: Slot, fetches: seq<Fetch>, raiseAt: nat, n: nat)
    requires n < |fetches| && n <= raiseAt && fetches[n].FetchFailed?
    requires forall i :: 0 <= i < n ==> fetches[i].Captured?
    ensures Run(fetches, raiseAt).exit == Errored(fetches[n].code)
    ensures AfterPublishes(s, Run(fetches, raiseAt).published) == if n == 0 then s else Slot(fetches[n - 1].frame, false)
  {
    var t := Run(fetches, raiseAt);
    if |t.published| > n {
      RunPublishesFetched(fetches, raiseAt, n);
    }
    assert |t.published| == n;
    if n > 0 {
      RunPublishesFetched(fetches, raiseAt, n - 1);
    }
  }
}
