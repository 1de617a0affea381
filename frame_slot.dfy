/**
 * The single-slot frame hand-off between the capture thread and the display
 * system: the `LastFrame` cell behind `CameraImageRaw` (src/main.rs).
 *
 * The slot keeps exactly one frame. The capture loop overwrites it wholesale
 * and marks it unread; the consumer copies it out only when it is unread and
 * marks it read. Both sides hold the mutex for the whole read-modify-write,
 * so each access is one atomic step here.
 */
module FrameSlot {
  import opened Wrappers

  type Byte = bv8
  type Frame = seq<Byte>

  /** The value held by a `LastFrame`: the newest frame's bytes and its `readed` flag. */
  datatype Slot = Slot(data: Frame, readed: bool)

  /** `LastFrame::default()`: an empty buffer whose flag is false, i.e. "unread". */
  const Initial: Slot := Slot([], false)

  /** The capture loop's write: the buffer is cleared, refilled with `buf` and marked unread. */
  function AfterPublish(s: Slot, buf: Frame): Slot
  {
    Slot(buf, false)
  }

  /** The consumer's read: nothing if the slot is already read, else a copy of its bytes, after which it is read. */
  function AfterTake(s: Slot): (Slot, Option<Frame>)
  {
    if s.readed then (s, None) else (s.(readed := true), Some(s.data))
  }

  /** The shared cell itself; `data` is the `Vec<u8>` that the capture loop refills in place. */
  class LastFrame {
    var data: Frame
    var readed: bool

    function State(): Slot
      reads this
    {
      Slot(data, readed)
    }

    constructor ()
      ensures State() == Initial
    {
      data := [];
      readed := false;
    }

    /** Lines 109-112: under the lock, `clear`, `extend_from_slice(buf)`, `readed = false`. */
    method Publish(buf: Frame)
      modifies this
      ensures data == buf && !readed
      ensures State() == AfterPublish(old(State()), buf)
    {
      data := [];
      data := data + buf;
      readed := false;
    }

    /** Lines 259-266: under the lock, return early if `readed`; otherwise set it and clone the bytes. */
    method Take() returns (r: Option<Frame>)
      modifies this
      ensures data == old(data) && readed
      ensures r == if old(readed) then None else Some(old(data))
      ensures (State(), r) == AfterTake(old(State()))
    {
      if readed {
        return None;
      }
      readed := true;
      r := Some(data);
    }
  }

  /** One locked access to the slot: a publish by the capture loop or a take by the consumer. */
  datatype Access = Write(frame: Frame) | Read

  function Apply(s: Slot, a: Access): Slot
  {
    match a
    case Write(f) => AfterPublish(s, f)
    case Read => AfterTake(s).0
  }

  /** The slot after the accesses `acc`, performed in order, starting from `s`. */
  function Replay(s: Slot, acc: seq<Access>): Slot
    decreases |acc|
  {
    if acc == [] then s else Apply(Replay(s, acc[..|acc| - 1]), acc[|acc| - 1])
  }

  /** What the read at position `j` of `acc` hands to the consumer. */
  function ReadAt(s: Slot, acc: seq<Access>, j: nat): Option<Frame>
    requires j < |acc| && acc[j].Read?
  {
    AfterTake(Replay(s, acc[..j])).1
  }

  /** Reference definition: the frame of the last write in `acc`, or `d` when `acc` writes nothing. */
  function Newest(d: Frame, acc: seq<Access>): Frame
    decreases |acc|
  {
    if acc == [] then d
    else if acc[|acc| - 1].Write? then acc[|acc| - 1].frame
    else Newest(d, acc[..|acc| - 1])
  }

  /** Publishing the frames `fs` one after the other. */
  function Writes(fs: seq<Frame>): seq<Access>
  {
    seq(|fs|, i requires 0 <= i < |fs| => Write(fs[i]))
  }

  /** The slot always holds the newest frame written so far: a write leaves no remnant of older ones. */
  lemma {:induction false} ReplayHoldsNewest(s: Slot, acc: seq<Access>)
    ensures Replay(s, acc).data == Newest(s.data, acc)
    decreases |acc|
  {
    if acc != [] {
      ReplayHoldsNewest(s, acc[..|acc| - 1]);
    }
  }

  /** The slot is marked read exactly when the last access was a read (or, with no access, as it started). */
  lemma ReplayReaded(s: Slot, acc: seq<Access>)
    ensures Replay(s, acc).readed == if acc == [] then s.readed else acc[|acc| - 1].Read?
  {
  }

  /** No time travel: a read that returns a frame returns the newest frame written before it. */
  lemma NoStaleRead(s: Slot, acc: seq<Access>, j: nat)
    requires j < |acc| && acc[j].Read? && ReadAt(s, acc, j).Some?
    ensures ReadAt(s, acc, j).value == Newest(s.data, acc[..j])
  {
    ReplayHoldsNewest(s, acc[..j]);
  }

  /**
   * Single consumption: a read returns a frame exactly when the access just
   * before it was a write (or, for the first access, when the slot started unread).
   */
  lemma ReadSucceedsIff(s: Slot, acc: seq<Access>, j: nat)
    requires j < |acc| && acc[j].Read?
    ensures ReadAt(s, acc, j).Some? <==> if j == 0 then !s.readed else acc[j - 1].Write?
  {
    ReplayReaded(s, acc[..j]);
    if j > 0 {
      assert acc[..j][j - 1] == acc[j - 1];
    }
  }

  /** No duplicate delivery: between two reads that both return a frame there is a write. */
  lemma NoDuplicateDelivery(s: Slot, acc: seq<Access>, j1: nat, j2: nat)
    requires j1 < j2 < |acc| && acc[j1].Read? && acc[j2].Read?
    requires ReadAt(s, acc, j2).Some?
    ensures exists k :: j1 < k < j2 && acc[k].Write?
  {
    ReadSucceedsIff(s, acc, j2);
    assert acc[j2 - 1].Write?;
    assert j2 - 1 != j1;
  }

  /** Publish F, then take twice: the first take returns exactly F, the second nothing. */
  lemma PublishTakeTake(s: Slot, f: Frame)
    ensures ReadAt(s, [Write(f), Read, Read], 1) == Some(f)
    ensures ReadAt(s, [Write(f), Read, Read], 2) == None
  {
    var acc := [Write(f), Read, Read];
    assert acc[..1] == [Write(f)] && acc[..1][..0] == [];
    assert acc[..2] == [Write(f), Read] && acc[..2][..1] == [Write(f)];
  }

  /** Before any frame arrives the default slot is unread, so the first take hands out the empty buffer. */
  lemma FirstTakeBeforeAnyFrame()
    ensures ReadAt(Initial, [Read], 0) == Some([])
  {
    assert [Read][..0] == [];
  }

  /** The slot after the capture loop has published `fs` with no take in between: the last of them, unread. */
  function AfterPublishes(s: Slot, fs: seq<Frame>): Slot
  {
    if fs == [] then s else Slot(fs[|fs| - 1], false)
  }

  /** Publishing frames back to back is the same as publishing only the last of them. */
  lemma ReplayWrites(s: Slot, fs: seq<Frame>)
    ensures Replay(s, Writes(fs)) == AfterPublishes(s, fs)
  {
    if fs != [] {
      assert Writes(fs)[..|fs| - 1] == Writes(fs[..|fs| - 1]);
    }
  }
}
