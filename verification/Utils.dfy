/**
 * The helpers of src/utils/utils.js. src/puppeteer/puppeteer.js carries copies of
 * `parseBool`, `parseOptionalTime`, `formatMillis` and `firstNonNegative` with the
 * same text, so this one definition stands for both.
 */
module Utils {
  import opened Js

  // ---------------------------------------------------------------------------
  // isEmpty

  /** `Object.keys(v).length` for a value other than undefined and null. */
  function OwnKeyCount(v: Value): nat {
    match v
    case Str(s) => |s|
    case Arr(items) => |items|
    case Obj(props) => |props|
    case _ => 0
  }

  /** `isEmpty(data)`: `undefined === data || Object.keys(data).length === 0`. */
  function IsEmpty(data: Value): (r: Result<bool, Exception>)
    ensures r.Failure? <==> data.Null?
  {
    if data.Undefined? then Success(true)
    else if data.Null? then Failure(TypeError)   // Object.keys(null) throws
    else Success(OwnKeyCount(data) == 0)
  }

  /** `isEmpty` holds of undefined and of exactly the values with no own keys. */
  lemma IsEmptyExactly(data: Value)
    requires !data.Null?
    ensures IsEmpty(data) == Success(true) <==>
      data.Undefined? || data.Bool? || data.Number? ||
      data == Str("") || data == Arr([]) || data == Obj(map[])
  {
    if data.Obj? && |data.props| == 0 {
      assert data.props.Keys == {};
    }
  }

  // ---------------------------------------------------------------------------
  // parseBool

  /** `parseBool(value)`: `value === 'true' || value === true`. */
  predicate ParseBool(value: Value)
    ensures ParseBool(value) <==> value == Str("true") || value == Bool(true)
  {
    StrictEquals(value, Str("true")) || StrictEquals(value, Bool(true))
  }

  /** Only the string 'true' and the boolean true parse as true; no case folding, no numbers. */
  lemma ParseBoolOnlyTrue(value: Value)
    ensures ParseBool(value) <==> value == Str("true") || value == Bool(true)
    ensures !ParseBool(Str("TRUE")) && !ParseBool(Str("1")) && !ParseBool(Bool(false))
    ensures !ParseBool(Number(FromInt(1)))
  {
  }

  // ---------------------------------------------------------------------------
  // formatMillis

  /** One thousandth, in the units of `Num`: the step of three fractional digits. */
  const Quantum: int := 1000

  /**
   * `Number(x.toFixed(3))` on an exact decimal: the nearest multiple of 1/1000, a tie
   * going to the larger magnitude (toFixed rounds |x| and keeps the sign).
   */
  function Round3(x: Num): (r: Num)
    ensures r.NaN? <==> x.NaN?
    ensures r.Finite? ==> r.units % Quantum == 0
    ensures r.Finite? ==> -Quantum <= 2 * (r.units - x.units) <= Quantum
    ensures r.Finite? ==> (x.units >= 0 <==> r.units >= 0) || (x.units < 0 && r.units == 0)
  {
    match x
    case NaN => NaN
    case Finite(u) =>
      if u >= 0 then Finite((u + Quantum / 2) / Quantum * Quantum)
      else Finite(-((-u + Quantum / 2) / Quantum * Quantum))
  }

  /** NaN, or a number with at most three fractional digits. */
  predicate ThreeDigits(x: Num) {
    x.NaN? || x.units % Quantum == 0
  }

  /** `formatMillis(time)` with its default of three fractional digits. */
  function FormatMillis(time: Value): (r: Num)
    ensures ThreeDigits(r)
  {
    Round3(ToNumber(time))
  }

  /** A value that already has at most three fractional digits is left as it is. */
  lemma Round3KeepsThreeDigits(x: Num)
    requires x.Finite? && x.units % Quantum == 0
    ensures Round3(x) == x
  {
  }

  /** Formatting twice is formatting once. */
  lemma FormatMillisIdempotent(time: Value)
    ensures FormatMillis(Number(FormatMillis(time))) == FormatMillis(time)
  {
    var r := FormatMillis(time);
    if r.Finite? { Round3KeepsThreeDigits(r); }
  }

  /** Rounding never reorders two values. */
  lemma Round3Monotonic(x: Num, y: Num)
    requires x.Finite? && y.Finite? && x.units <= y.units
    ensures Round3(x).units <= Round3(y).units
  {
  }

  /** Rounding is symmetric about zero. */
  lemma Round3Odd(u: int)
    ensures Round3(Finite(-u)).units == -Round3(Finite(u)).units
  {
  }

  // ---------------------------------------------------------------------------
  // parseOptionalTime

  /** `timing[key] >= 0`. */
  predicate AtLeastZero(v: Value) {
    NonNegative(ToNumber(v))
  }

  /**
   * `parseOptionalTime(timing, start, end)`: -1 unless `timing[start] >= 0`, and then
   * the rounded `timing[end] - timing[start]`. Reading a key of undefined or null throws.
   */
  function ParseOptionalTime(timing: Value, start: string, end: string): (r: Result<Num, Exception>)
    ensures r.Failure? <==> timing.Undefined? || timing.Null?
    ensures r.Success? && !AtLeastZero(Prop(timing, start)) ==> r.value == MinusOne
    ensures r.Success? ==> ThreeDigits(r.value)
    ensures r.Success? && AtLeastZero(Prop(timing, start)) ==>
      (r.value.NaN? <==> ToNumber(Prop(timing, end)).NaN?)
  {
    if timing.Undefined? || timing.Null? then Failure(TypeError)
    else if AtLeastZero(Prop(timing, start)) then
      Success(FormatMillis(Number(Sub(ToNumber(Prop(timing, end)), ToNumber(Prop(timing, start))))))
    else Success(MinusOne)
  }

  /**
   * A measured phase is the end-minus-start duration to within half a thousandth, with
   * three fractional digits; when the phase does not run backwards it is never the -1
   * sentinel, so the sentinel means exactly "start was negative or missing".
   */
  lemma ParseOptionalTimeMeasured(timing: Value, start: string, end: string)
    requires !timing.Undefined? && !timing.Null?
    requires AtLeastZero(Prop(timing, start)) && ToNumber(Prop(timing, end)).Finite?
    ensures var r := ParseOptionalTime(timing, start, end).value;
      var d := ToNumber(Prop(timing, end)).units - ToNumber(Prop(timing, start)).units;
      && r.Finite? && r.units % Quantum == 0
      && -Quantum <= 2 * (r.units - d) <= Quantum
      && (d >= 0 ==> r.units >= 0 && r != MinusOne)
  {
  }

  // ---------------------------------------------------------------------------
  // firstNonNegative

  /** The first element that is `>= 0`, in index order, or the number -1. */
  function FirstNonNegativeOf(values: seq<Value>): (r: Value)
    ensures r == Number(MinusOne) || AtLeastZero(r)
  {
    if |values| == 0 then Number(MinusOne)
    else if AtLeastZero(values[0]) then values[0]
    else FirstNonNegativeOf(values[1..])
  }

  /** `i` is the index of the first element that is `>= 0`. */
  predicate IsFirstNonNegativeAt(values: seq<Value>, i: int) {
    0 <= i < |values| && AtLeastZero(values[i]) &&
    forall j :: 0 <= j < i ==> !AtLeastZero(values[j])
  }

  /** The result is the first non-negative element when there is one, and -1 only when there is none. */
  lemma {:induction false} FirstNonNegativeOfIsFirst(values: seq<Value>)
    ensures (exists i :: IsFirstNonNegativeAt(values, i) && FirstNonNegativeOf(values) == values[i])
        || ((forall j :: 0 <= j < |values| ==> !AtLeastZero(values[j])) &&
            FirstNonNegativeOf(values) == Number(MinusOne))
  {
    if |values| > 0 {
      if AtLeastZero(values[0]) {
        assert IsFirstNonNegativeAt(values, 0);
      } else {
        var rest := values[1..];
        FirstNonNegativeOfIsFirst(rest);
        if exists i :: IsFirstNonNegativeAt(rest, i) && FirstNonNegativeOf(rest) == rest[i] {
          var i :| IsFirstNonNegativeAt(rest, i) && FirstNonNegativeOf(rest) == rest[i];
          assert IsFirstNonNegativeAt(values, i + 1) by {
            forall j | 0 <= j < i + 1 ensures !AtLeastZero(values[j]) {
              if j > 0 { assert values[j] == rest[j - 1]; }
            }
          }
        } else {
          forall j | 0 <= j < |values| ensures !AtLeastZero(values[j]) {
            if j > 0 { assert values[j] == rest[j - 1]; }
          }
        }
      }
    }
  }

  /** `firstNonNegative(values)`: the index loop with an early return. */
  method FirstNonNegative(values: seq<Value>) returns (r: Value)
    ensures r == FirstNonNegativeOf(values)
    ensures forall j :: 0 <= j < |values| && AtLeastZero(values[j]) ==>
      exists i :: 0 <= i <= j && IsFirstNonNegativeAt(values, i) && r == values[i]
    ensures (forall j :: 0 <= j < |values| ==> !AtLeastZero(values[j])) ==> r == Number(MinusOne)
  {
    var i := 0;
    while i < |values|
      invariant 0 <= i <= |values|
      invariant forall j :: 0 <= j < i ==> !AtLeastZero(values[j])
      invariant FirstNonNegativeOf(values[i..]) == FirstNonNegativeOf(values)
    {
      if AtLeastZero(values[i]) {
        assert IsFirstNonNegativeAt(values, i);
        return values[i];
      }
      assert values[i..][1..] == values[i + 1..];
      i := i + 1;
    }
    return Number(MinusOne);
  }
}
