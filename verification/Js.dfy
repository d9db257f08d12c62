/**
 * JavaScript values and the handful of built-in operations the worker relies on:
 * truthiness, `typeof`, property reads, the numeric conversions behind `>=` and `-`,
 * string conversion in template literals, and `String.prototype.split` / `trim` /
 * `toLowerCase` on the inputs the cookie parser sees.
 */
module Js {

  datatype Option<+T> = None | Some(value: T)

  datatype Result<+T, +E> = Success(value: T) | Failure(error: E) {
    predicate IsFailure() { Failure? }
    function PropagateFailure<U>(): Result<U, E> requires Failure? { Failure(error) }
    function Extract(): T requires Success? { value }
  }

  /** What a `throw` carries: a built-in TypeError, or an `Error` with a message. */
  datatype Exception = TypeError | Error(message: string)

  /**
   * A JS number, as a decimal with six fractional digits: `Finite(u)` stands for
   * u / 1_000_000. Infinities are not modelled.
   */
  datatype Num = Finite(units: int) | NaN

  const UnitsPerOne: int := 1_000_000

  /** The JS number -1, the "phase not applicable" sentinel. */
  const MinusOne: Num := Finite(-UnitsPerOne)

  function FromInt(i: int): Num { Finite(i * UnitsPerOne) }

  datatype Value =
    | Undefined
    | Null
    | Bool(b: bool)
    | Number(n: Num)
    | Str(s: string)
    | Arr(items: seq<Value>)
    | Obj(props: map<string, Value>)

  predicate Truthy(v: Value) {
    match v
    case Undefined => false
    case Null => false
    case Bool(b) => b
    case Number(n) => n.Finite? && n.units != 0
    case Str(s) => s != ""
    case Arr(_) => true
    case Obj(_) => true
  }

  /** `typeof v`; note that `typeof null` is "object". */
  function TypeOf(v: Value): string {
    match v
    case Undefined => "undefined"
    case Null => "object"
    case Bool(_) => "boolean"
    case Number(_) => "number"
    case Str(_) => "string"
    case Arr(_) => "object"
    case Obj(_) => "object"
  }

  /** Reading a property of an object: an absent key reads as `undefined`. */
  function Get(props: map<string, Value>, key: string): Value {
    if key in props then props[key] else Undefined
  }

  /**
   * `v.key` for a value that is neither undefined nor null. Properties inherited by
   * primitives (a string's `length`, ...) are not modelled and read as undefined.
   */
  function Prop(v: Value, key: string): Value
    requires !v.Undefined? && !v.Null?
  {
    if v.Obj? then Get(v.props, key) else Undefined
  }

  /** `v.key`, which throws a TypeError on undefined and null. */
  function Member(v: Value, key: string): (r: Result<Value, Exception>)
    ensures r.Failure? <==> v.Undefined? || v.Null?
  {
    if v.Undefined? || v.Null? then Failure(TypeError) else Success(Prop(v, key))
  }

  /**
   * `===`. NaN is unequal to itself; objects and arrays are compared by content,
   * since the model has no object identity.
   */
  predicate StrictEquals(a: Value, b: Value) {
    if a.Number? && b.Number? then a.n.Finite? && a.n == b.n else a == b
  }

  /**
   * ToNumber, as applied by `>=`, `-` and `Number(...)`. Strings and arrays are
   * read as NaN: the model does not parse numeric strings.
   */
  function ToNumber(v: Value): Num {
    match v
    case Undefined => NaN
    case Null => Finite(0)
    case Bool(b) => if b then FromInt(1) else Finite(0)
    case Number(n) => n
    case Str(_) => NaN
    case Arr(_) => NaN
    case Obj(_) => NaN
  }

  /** `x >= 0`; false for NaN. */
  predicate NonNegative(x: Num) {
    x.Finite? && x.units >= 0
  }

  function Add(a: Num, b: Num): Num {
    if a.Finite? && b.Finite? then Finite(a.units + b.units) else NaN
  }

  function Sub(a: Num, b: Num): Num {
    if a.Finite? && b.Finite? then Finite(a.units - b.units) else NaN
  }

  /** `Math.max(0, x)`: NaN when x is NaN. */
  function Max0(x: Num): Num {
    if x.NaN? then NaN else if x.units < 0 then Finite(0) else x
  }

  // ---------------------------------------------------------------------------
  // String conversion (template literals)

  function DigitChar(d: nat): char
    requires d < 10
  {
    "0123456789"[d]
  }

  function NatToString(n: nat): (s: string)
    ensures |s| >= 1
    decreases n
  {
    if n < 10 then [DigitChar(n)] else NatToString(n / 10) + [DigitChar(n % 10)]
  }

  /** `width` digits of n, with leading zeros. */
  function PadDigits(n: nat, width: nat): (s: string)
    ensures |s| == width
  {
    if width == 0 then "" else PadDigits(n / 10, width - 1) + [DigitChar(n % 10)]
  }

  function TrimTrailingZeros(s: string): string {
    if |s| > 0 && s[|s| - 1] == '0' then TrimTrailingZeros(s[..|s| - 1]) else s
  }

  /** Number::toString for the numbers of this model (no exponent notation). */
  function NumToString(n: Num): string {
    match n
    case NaN => "NaN"
    case Finite(u) =>
      var mag: nat := if u < 0 then -u else u;
      var whole := NatToString(mag / UnitsPerOne);
      var frac := mag % UnitsPerOne;
      (if u < 0 then "-" else "")
      + whole
      + (if frac == 0 then "" else "." + TrimTrailingZeros(PadDigits(frac, 6)))
  }

  function JoinWithComma(parts: seq<string>): string {
    if |parts| == 0 then ""
    else if |parts| == 1 then parts[0]
    else parts[0] + "," + JoinWithComma(parts[1..])
  }

  /** ToString, as applied by `${v}`. */
  function ToString(v: Value): string
    decreases v
  {
    match v
    case Undefined => "undefined"
    case Null => "null"
    case Bool(b) => if b then "true" else "false"
    case Number(n) => NumToString(n)
    case Str(s) => s
    case Arr(items) =>
      // Array.prototype.join: undefined and null elements print as ""
      JoinWithComma(seq(|items|, i requires 0 <= i < |items| =>
        if items[i].Undefined? || items[i].Null? then "" else ToString(items[i])))
    case Obj(_) => "[object Object]"
  }

  // ---------------------------------------------------------------------------
  // String.prototype.split with a one-character separator, and its inverse

  /** Index of the first `c` in s, or |s| when there is none. */
  function IndexOf(s: string, c: char): (i: nat)
    ensures i <= |s|
    ensures forall k :: 0 <= k < i ==> s[k] != c
    ensures i < |s| ==> s[i] == c
  {
    if |s| == 0 then 0 else if s[0] == c then 0 else 1 + IndexOf(s[1..], c)
  }

  /** `s.split(sep)`: the pieces between separators, always at least one. */
  function Split(s: string, sep: char): (pieces: seq<string>)
    ensures |pieces| >= 1
    decreases |s|
  {
    var i := IndexOf(s, sep);
    if i == |s| then [s] else [s[..i]] + Split(s[i + 1..], sep)
  }

  /** `pieces.join(sep)`. */
  function Join(pieces: seq<string>, sep: char): string {
    if |pieces| == 0 then ""
    else if |pieces| == 1 then pieces[0]
    else pieces[0] + [sep] + Join(pieces[1..], sep)
  }

  /** Splitting loses nothing: joining the pieces gives back the string. */
  lemma {:induction false} SplitJoin(s: string, sep: char)
    ensures Join(Split(s, sep), sep) == s
    decreases |s|
  {
    var i := IndexOf(s, sep);
    if i < |s| {
      var rest := s[i + 1..];
      SplitJoin(rest, sep);
      var pieces, tail := Split(s, sep), Split(rest, sep);
      assert pieces == [s[..i]] + tail;
      assert pieces[0] == s[..i] && pieces[1..] == tail;
      assert Join(pieces, sep) == s[..i] + [sep] + Join(tail, sep);
      AroundIndex(s, i);
    }
  }

  /** A string is what lies before position i, the character at i, and what follows. */
  lemma AroundIndex(s: string, i: nat)
    requires i < |s|
    ensures s == s[..i] + [s[i]] + s[i + 1..]
  {
  }

  /** No piece holds the separator. */
  lemma {:induction false} SplitPiecesFree(s: string, sep: char)
    ensures forall k :: 0 <= k < |Split(s, sep)| ==> sep !in Split(s, sep)[k]
    decreases |s|
  {
    var i := IndexOf(s, sep);
    if i < |s| {
      var rest := s[i + 1..];
      SplitPiecesFree(rest, sep);
      var pieces := Split(s, sep);
      assert pieces == [s[..i]] + Split(rest, sep);
      forall k | 0 <= k < |pieces| ensures sep !in pieces[k] {
        if k > 0 {
          assert pieces[k] == Split(rest, sep)[k - 1];
        }
      }
    }
  }

  /** The first separator ends the first piece. */
  lemma SplitAtFirst(a: string, b: string, sep: char)
    requires sep !in a
    ensures Split(a + [sep] + b, sep) == [a] + Split(b, sep)
  {
    var s := a + [sep] + b;
    assert s[|a|] == sep;
    var i := IndexOf(s, sep);
    assert i == |a|;
    assert s[..i] == a;
    assert s[i + 1..] == b;
  }

  /** Three pieces around two separators. */
  lemma SplitThree(a: string, b: string, c: string, sep: char)
    requires sep !in a && sep !in b && sep !in c
    ensures Split(a + [sep] + b + [sep] + c, sep) == [a, b, c]
  {
    assert a + [sep] + b + [sep] + c == a + [sep] + (b + [sep] + c);
    SplitAtFirst(a, b + [sep] + c, sep);
    SplitTwo(b, c, sep);
  }

  /** Two pieces around one separator. */
  lemma SplitTwo(a: string, b: string, sep: char)
    requires sep !in a && sep !in b
    ensures Split(a + [sep] + b, sep) == [a, b]
  {
    SplitAtFirst(a, b, sep);
    SplitWithoutSeparator(b, sep);
  }

  /** A separator-free last piece is split off on its own: the pieces of `a`, then `b`. */
  lemma {:induction false} SplitAppend(a: string, b: string, sep: char)
    requires sep !in b
    ensures Split(a + [sep] + b, sep) == Split(a, sep) + [b]
    decreases |a|
  {
    var s := a + [sep] + b;
    var i := IndexOf(s, sep);
    assert s[|a|] == sep;
    if i == |a| {
      assert s[..i] == a && s[i + 1..] == b;
      SplitWithoutSeparator(b, sep);
      assert sep !in a by {
        forall k | 0 <= k < |a| ensures a[k] != sep {
          assert s[k] == a[k];
        }
      }
      SplitWithoutSeparator(a, sep);
    } else {
      assert i < |a| && a[i] == sep;
      assert IndexOf(a, sep) == i by {
        forall k | 0 <= k < i ensures a[k] != sep {
          assert s[k] == a[k];
        }
      }
      assert s[..i] == a[..i];
      assert s[i + 1..] == a[i + 1..] + [sep] + b;
      SplitAppend(a[i + 1..], b, sep);
    }
  }

  /** A string without the separator is one piece. */
  lemma SplitWithoutSeparator(s: string, sep: char)
    requires sep !in s
    ensures Split(s, sep) == [s]
  {
  }

  // ---------------------------------------------------------------------------
  // String.prototype.trim and toLowerCase

  /** ECMAScript WhiteSpace and LineTerminator code points, the ones `trim` removes. */
  predicate IsWhiteSpace(c: char) {
    c == '\t' || c == '\n' || c == '\U{0B}' || c == '\U{0C}' || c == '\r' || c == ' '
    || c == '\U{A0}' || c == '\U{1680}' || ('\U{2000}' <= c <= '\U{200A}')
    || c == '\U{2028}' || c == '\U{2029}' || c == '\U{202F}' || c == '\U{205F}'
    || c == '\U{3000}' || c == '\U{FEFF}'
  }

  function TrimStart(s: string): (r: string)
    ensures |r| <= |s|
    ensures |r| > 0 ==> !IsWhiteSpace(r[0])
    ensures r == s[|s| - |r|..]
  {
    if |s| > 0 && IsWhiteSpace(s[0]) then TrimStart(s[1..]) else s
  }

  function TrimEnd(s: string): (r: string)
    ensures |r| <= |s|
    ensures |r| > 0 ==> !IsWhiteSpace(r[|r| - 1])
    ensures r == s[..|r|]
  {
    if |s| > 0 && IsWhiteSpace(s[|s| - 1]) then TrimEnd(s[..|s| - 1]) else s
  }

  /** `s.trim()`: a contiguous part of `s` with white space at neither end. */
  function Trim(s: string): (r: string)
    ensures |r| <= |s|
    ensures |r| > 0 ==> !IsWhiteSpace(r[0]) && !IsWhiteSpace(r[|r| - 1])
  {
    TrimEnd(TrimStart(s))
  }

  function LowerChar(c: char): char {
    if 'A' <= c <= 'Z' then (c as int + 32) as char else c
  }

  /** `s.toLowerCase()`, for the ASCII letters. */
  function ToLowerCase(s: string): (r: string)
    ensures |r| == |s|
    ensures forall k :: 0 <= k < |s| ==> r[k] == LowerChar(s[k])
  {
    seq(|s|, k requires 0 <= k < |s| => LowerChar(s[k]))
  }

  // ---------------------------------------------------------------------------
  // Object literals

  /**
   * The object an object literal evaluates to: its property definitions in order, a
   * later definition of a name replacing an earlier one.
   */
  function ObjectOf(defs: seq<(string, Value)>): map<string, Value> {
    if |defs| == 0 then map[]
    else ObjectOf(defs[..|defs| - 1])[defs[|defs| - 1].0 := defs[|defs| - 1].1]
  }

  /** Defining the names of `a`, then those of `b`: a name of `b` overrides the same name of `a`. */
  lemma {:induction false} ObjectOfAppend(a: seq<(string, Value)>, b: seq<(string, Value)>)
    ensures ObjectOf(a + b) == ObjectOf(a) + ObjectOf(b)
    decreases |b|
  {
    if |b| == 0 {
      assert a + b == a;
    } else {
      assert (a + b)[..|a + b| - 1] == a + b[..|b| - 1];
      ObjectOfAppend(a, b[..|b| - 1]);
    }
  }

  /** A name's last definition gives its value. */
  lemma {:induction false} ObjectOfLast(defs: seq<(string, Value)>, i: nat)
    requires i < |defs|
    requires forall j :: i < j < |defs| ==> defs[j].0 != defs[i].0
    ensures defs[i].0 in ObjectOf(defs) && ObjectOf(defs)[defs[i].0] == defs[i].1
  {
    if i < |defs| - 1 {
      ObjectOfLast(defs[..|defs| - 1], i);
    }
  }

  /** A name the literal never defines is not a key of the object. */
  lemma {:induction false} ObjectOfAbsent(defs: seq<(string, Value)>, key: string)
    requires forall j :: 0 <= j < |defs| ==> defs[j].0 != key
    ensures key !in ObjectOf(defs)
  {
    if |defs| > 0 {
      ObjectOfAbsent(defs[..|defs| - 1], key);
    }
  }

  // ---------------------------------------------------------------------------
  // Copying declared keys, as both entity constructors do

  /**
   * `Object.keys(source).filter(key => key in target).forEach(key => target[key] = source[key])`,
   * as a value: the target keeps its key set, and each of its keys present in the
   * source takes the source's value.
   */
  function CopyDeclared(target: map<string, Value>, source: map<string, Value>): (r: map<string, Value>)
    ensures r.Keys == target.Keys
    ensures forall k :: k in target && k in source ==> r[k] == source[k]
    ensures forall k :: k in target && k !in source ==> r[k] == target[k]
  {
    map k | k in target :: if k in source then source[k] else target[k]
  }

  /** The `forEach` that performs `CopyDeclared`: one filtered key at a time. */
  method AssignDeclared(target: map<string, Value>, source: map<string, Value>) returns (r: map<string, Value>)
    ensures r == CopyDeclared(target, source)
  {
    r := target;
    var keys := source.Keys;
    while keys != {}
      invariant keys <= source.Keys
      invariant r.Keys == target.Keys
      invariant forall k :: k in r ==>
        r[k] == if k in source && k !in keys then source[k] else target[k]
      decreases keys
    {
      var key :| key in keys;
      if key in r {
        r := r[key := source[key]];
      }
      keys := keys - {key};
    }
  }
}
