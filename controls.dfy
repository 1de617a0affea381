/**
 * The part of `config_camera` (src/main.rs) that is logic rather than
 * widgets: what the "Reset" button writes back for each control, and when a
 * control's widget is enabled.
 */
module Controls {
  import opened Wrappers

  newtype i64 = x: int | -0x8000_0000_0000_0000 <= x < 0x8000_0000_0000_0000

  /** A control's current value, as the driver reports it (v4l's `control::Value`). */
  datatype Value =
    | NoValue
    | Integer(i: i64)
    | Boolean(b: bool)
    | Text(s: string)
    | CompoundU8(u8s: seq<bv8>)
    | CompoundU16(u16s: seq<bv16>)
    | CompoundU32(u32s: seq<bv32>)
    | CompoundPtr(bytes: seq<bv8>)

  /** The parts of a control's descriptor that this logic reads. */
  datatype Description = Description(id: nat, default: i64, flags: bv32)

  /** A control id with a value: what `set_control` is given. */
  datatype Control = Control(id: nat, value: Value)

  /** Descriptor flag bits (the kernel's V4L2_CTRL_FLAG_DISABLED and V4L2_CTRL_FLAG_INACTIVE). */
  const DISABLED: bv32 := 0x0001
  const INACTIVE: bv32 := 0x0010

  /** Lines 159-164 and 180-185: the widget is enabled unless the descriptor has DISABLED or INACTIVE. */
  function Enabled(flags: bv32): (r: bool)
    ensures r <==> flags & (DISABLED | INACTIVE) == 0
  {
    !(flags & DISABLED == DISABLED || flags & INACTIVE == INACTIVE)
  }

  /** Flags other than DISABLED and INACTIVE have no say in whether the widget is enabled. */
  lemma EnabledIgnoresOtherFlags(flags: bv32, other: bv32)
    requires other & (DISABLED | INACTIVE) == 0
    ensures Enabled(flags | other) == Enabled(flags)
  {
  }

  /** Values the reset writes back; text and compound values are left alone. */
  predicate Resettable(v: Value)
  {
    v.NoValue? || v.Integer? || v.Boolean?
  }

  predicate SameKind(a: Value, b: Value)
  {
    match a
    case NoValue => b.NoValue?
    case Integer(_) => b.Integer?
    case Boolean(_) => b.Boolean?
    case Text(_) => b.Text?
    case CompoundU8(_) => b.CompoundU8?
    case CompoundU16(_) => b.CompoundU16?
    case CompoundU32(_) => b.CompoundU32?
    case CompoundPtr(_) => b.CompoundPtr?
  }

  /**
   * Lines 134-143: the value a reset writes for a control whose current value
   * is `current`; `None` is the `continue` arms, where nothing is written.
   */
  function ResetValue(current: Value, default: i64): (r: Option<Value>)
    ensures r.Some? <==> Resettable(current)
    ensures r.Some? ==> SameKind(current, r.value)
  {
    match current
    case NoValue => Some(NoValue)
    case Integer(_) => Some(Integer(default))
    case Boolean(_) => Some(Boolean(default != 0))
    case Text(_) => None
    case CompoundU8(_) => None
    case CompoundU16(_) => None
    case CompoundU32(_) => None
    case CompoundPtr(_) => None
  }

  /** The 64-bit payload a V4L2 driver stores for an integer or boolean control (booleans as 0 or 1). */
  function Payload(v: Value): Option<i64>
  {
    match v
    case Integer(i) => Some(i)
    case Boolean(b) => Some(if b then 1 else 0)
    case _ => None
  }

  /**
   * A reset stores the descriptor's default: exactly for integers, and for
   * booleans whenever the default is a boolean payload (0 or 1); any other
   * non-zero default reads back as `true`.
   */
  lemma ResetStoresDefault(current: Value, default: i64)
    requires current.Integer? || current.Boolean?
    ensures current.Integer? ==> Payload(ResetValue(current, default).value) == Some(default)
    ensures current.Boolean? && (default == 0 || default == 1) ==> Payload(ResetValue(current, default).value) == Some(default)
    ensures current.Boolean? ==> ResetValue(current, default) == Some(Boolean(default != 0))
  {
  }

  /** The reset does not depend on the value being replaced, and resetting twice writes what resetting once wrote. */
  lemma ResetIgnoresCurrent(a: Value, b: Value, default: i64)
    requires Resettable(a) && SameKind(a, b)
    ensures ResetValue(a, default) == ResetValue(b, default)
    ensures ResetValue(ResetValue(a, default).value, default) == ResetValue(a, default)
  {
  }

  /** A boolean control with default 0, set to true, resets to false. */
  lemma BooleanResetsToFalse()
    ensures ResetValue(Boolean(true), 0) == Some(Boolean(false))
  {
  }

  /** One descriptor from `query_controls` and what `device.control(id)` returned for it (`None` for an error). */
  datatype Query = Query(desc: Description, read: Option<Value>)

  /** The `set_control` call the reset loop makes for one query, if any. */
  function ResetRequest(q: Query): (r: Option<Control>)
    ensures r.Some? <==> q.read.Some? && Resettable(q.read.value)
    ensures r.Some? ==> r.value.id == q.desc.id && ResetValue(q.read.value, q.desc.default) == Some(r.value.value)
  {
    match q.read
    case None => None
    case Some(v) =>
      match ResetValue(v, q.desc.default)
      case None => None
      case Some(r) => Some(Control(q.desc.id, r))
  }

  /** The calls the reset loop makes for `qs`, in order. */
  function Plan(qs: seq<Query>): (r: seq<Control>)
    ensures |r| <= |qs|
    ensures (forall i :: 0 <= i < |qs| ==> ResetRequest(qs[i]).Some?) ==> |r| == |qs|
    decreases |qs|
  {
    if qs == [] then []
    else
      var last := ResetRequest(qs[|qs| - 1]);
      Plan(qs[..|qs| - 1]) + (if last.Some? then [last.value] else [])
  }

  /**
   * Lines 128-146: for each descriptor, read the control, skip it when the
   * read fails or its kind is not resettable, otherwise set the reset value.
   * `sets` lists the `set_control` calls in the order they are made.
   */
  method ResetAll(qs: seq<Query>) returns (sets: seq<Control>)
    ensures sets == Plan(qs)
  {
    sets := [];
    var i := 0;
    while i < |qs|
      invariant i <= |qs|
      invariant sets == Plan(qs[..i])
    {
      assert qs[..i + 1][..i] == qs[..i];
      var q := qs[i];
      match q.read {
        case None =>
        case Some(v) =>
          match ResetValue(v, q.desc.default) {
            case None =>
            case Some(r) =>
              sets := sets + [Control(q.desc.id, r)];
          }
      }
      i := i + 1;
    }
    assert qs[..i] == qs;
  }

  /**
   * A set is issued for a control exactly when its read succeeded and its
   * kind is resettable, and it carries that control's id and reset value.
   */
  lemma {:induction false} PlanIssues(qs: seq<Query>, c: Control)
    ensures c in Plan(qs) <==> exists i :: 0 <= i < |qs| && ResetRequest(qs[i]) == Some(c)
    decreases |qs|
  {
    if qs != [] {
      var init := qs[..|qs| - 1];
      PlanIssues(init, c);
      if c in Plan(init) {
        var i :| 0 <= i < |init| && ResetRequest(init[i]) == Some(c);
        assert qs[i] == init[i];
      }
      if exists i :: 0 <= i < |qs| && ResetRequest(qs[i]) == Some(c) {
        var i :| 0 <= i < |qs| && ResetRequest(qs[i]) == Some(c);
        if i < |init| {
          assert init[i] == qs[i];
        }
      }
    }
  }

  /** Every issued set writes a resettable kind, with the value that kind resets to. */
  lemma PlanWritesResetValues(qs: seq<Query>, c: Control)
    requires c in Plan(qs)
    ensures exists q :: q in qs && q.desc.id == c.id && q.read.Some? && ResetValue(q.read.value, q.desc.default) == Some(c.value)
  {
    PlanIssues(qs, c);
    var i :| 0 <= i < |qs| && ResetRequest(qs[i]) == Some(c);
    assert qs[i] in qs;
  }
}
