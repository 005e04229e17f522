/**
  The Python 2 values that schemer's validation code and its Document class
  work on, together with the few pieces of Python semantics they rely on:
  truth value (`if x:`), `isinstance` against the built-in types, `==`,
  `dict.get`, and the text `str()`/`repr()` produce for the values that
  appear in error messages.
 */
module PyValues {

  datatype Option<+T> = None | Some(value: T)

  /** A Python value: None, bool, int (int and long alike), str, a dict with
      string keys, or a list. */
  datatype Value =
    | Null
    | Bool(b: bool)
    | Int(i: int)
    | Str(s: string)
    | Dict(fields: map<string, Value>)
    | List(items: seq<Value>)

  /** Python's truth value: None, False, 0, '', {} and [] are false. */
  predicate Truthy(v: Value)
  {
    match v
    case Null => false
    case Bool(b) => b
    case Int(i) => i != 0
    case Str(s) => s != ""
    case Dict(m) => m != map[]
    case List(xs) => xs != []
  }

  /** `d.get(key, None)` on a dict. */
  function Get(fields: map<string, Value>, key: string): Value
  {
    if key in fields then fields[key] else Null
  }

  /** The built-in classes a schema field can name as its `type`. */
  datatype PyType =
    | NoneType
    | BoolType
    | IntType
    | StrType
    | BaseStringType
    | DictType
    | ListType
    | ObjectType

  /** `isinstance(v, t)`. `bool` is a subclass of `int`, `str` of
      `basestring`, and every class of `object`. */
  predicate IsInstance(v: Value, t: PyType)
  {
    match t
    case NoneType => v.Null?
    case BoolType => v.Bool?
    case IntType => v.Bool? || v.Int?
    case StrType => v.Str?
    case BaseStringType => v.Str?
    case DictType => v.Dict?
    case ListType => v.List?
    case ObjectType => true
  }

  /** `str(t)` for a class object, as `"{0}".format(t)` renders it. */
  function TypeRepr(t: PyType): string
  {
    match t
    case NoneType => "<type 'NoneType'>"
    case BoolType => "<type 'bool'>"
    case IntType => "<type 'int'>"
    case StrType => "<type 'str'>"
    case BaseStringType => "<type 'basestring'>"
    case DictType => "<type 'dict'>"
    case ListType => "<type 'list'>"
    case ObjectType => "<type 'object'>"
  }

  /** The integer a number stands for in comparisons (True is 1, False is 0). */
  function NumericValue(v: Value): Option<int>
  {
    match v
    case Bool(b) => Some(if b then 1 else 0)
    case Int(i) => Some(i)
    case _ => None
  }

  /** Python's `a == b`: numbers compare by value across bool and int,
      lists element-wise, dicts by keys and values; different kinds are unequal. */
  predicate PyEq(a: Value, b: Value)
    decreases a
  {
    if NumericValue(a).Some? || NumericValue(b).Some? then
      NumericValue(a).Some? && NumericValue(b).Some? && NumericValue(a).value == NumericValue(b).value
    else
      match a
      case Null => b.Null?
      case Str(s) => b.Str? && b.s == s
      case List(xs) =>
        b.List? && |xs| == |b.items| && forall i | 0 <= i < |xs| :: PyEq(xs[i], b.items[i])
      case Dict(m) =>
        b.Dict? && m.Keys == b.fields.Keys && forall k | k in m :: PyEq(m[k], b.fields[k])
      case _ => false
  }

  /** Every value equals itself. */
  lemma {:induction false} PyEqReflexive(a: Value)
    ensures PyEq(a, a)
    decreases a
  {
    match a
    case List(xs) =>
      forall i | 0 <= i < |xs| ensures PyEq(xs[i], xs[i]) {
        PyEqReflexive(xs[i]);
      }
    case Dict(m) =>
      forall k | k in m ensures PyEq(m[k], m[k]) {
        PyEqReflexive(m[k]);
      }
    case _ =>
  }

  // ---------------------------------------------------------------------
  // Decimal rendering of integers (`str(n)`, `"{0}".format(n)`)
  // ---------------------------------------------------------------------

  predicate IsDigit(c: char)
  {
    '0' <= c <= '9'
  }

  function DigitChar(d: nat): (c: char)
    requires d < 10
  {
    "0123456789"[d]
  }

  /** `str(n)` for a non-negative integer: no leading zeros. */
  function NatToString(n: nat): string
    decreases n
  {
    if n < 10 then [DigitChar(n)] else NatToString(n / 10) + [DigitChar(n % 10)]
  }

  /** `str(i)` for any integer. */
  function IntToString(i: int): string
  {
    if i < 0 then "-" + NatToString(-i) else NatToString(i)
  }

  /** `int(s)` for a string of decimal digits. */
  function ParseDigits(s: string): nat
    requires forall k | 0 <= k < |s| :: IsDigit(s[k])
    decreases |s|
  {
    if s == [] then 0
    else
      assert IsDigit(s[|s| - 1]);
      ParseDigits(s[..|s| - 1]) * 10 + (s[|s| - 1] as int - '0' as int)
  }

  /** Decimal rendering yields a non-empty string of digits that parses back. */
  lemma {:induction false} NatToStringRoundTrip(n: nat)
    ensures |NatToString(n)| > 0
    ensures forall k | 0 <= k < |NatToString(n)| :: IsDigit(NatToString(n)[k])
    ensures ParseDigits(NatToString(n)) == n
    decreases n
  {
    var s := NatToString(n);
    if n >= 10 {
      NatToStringRoundTrip(n / 10);
      var t := NatToString(n / 10);
      assert s == t + [DigitChar(n % 10)];
      assert s[..|s| - 1] == t;
    }
  }

  /** Different numbers render differently. */
  lemma NatToStringInjective(m: nat, n: nat)
    requires NatToString(m) == NatToString(n)
    ensures m == n
  {
    NatToStringRoundTrip(m);
    NatToStringRoundTrip(n);
  }

  // ---------------------------------------------------------------------
  // str() and repr()
  // ---------------------------------------------------------------------

  /** `str(v)`, as `"{0}".format(v)` renders it. */
  function Show(v: Value): string
  {
    match v
    case Str(s) => s
    case _ => Repr(v)
  }

  /** `repr(v)`. Strings are quoted without escaping; a dict's contents are
      not rendered, since their order is unspecified. */
  function Repr(v: Value): string
    decreases v, 1
  {
    match v
    case Null => "None"
    case Bool(b) => if b then "True" else "False"
    case Int(i) => IntToString(i)
    case Str(s) => "'" + s + "'"
    case Dict(_) => "{...}"
    case List(xs) => "[" + JoinReprs(v, 0) + "]"
  }

  /** The reprs of `list.items[i..]`, separated by ", ". */
  function JoinReprs(list: Value, i: nat): string
    requires list.List? && i <= |list.items|
    decreases list, 0, |list.items| - i
  {
    if i == |list.items| then ""
    else if i + 1 == |list.items| then Repr(list.items[i])
    else Repr(list.items[i]) + ", " + JoinReprs(list, i + 1)
  }

  /** `str(t)` for the tuple `t`: a one-element tuple carries a trailing comma. */
  function ReprTuple(elements: seq<Value>): string
  {
    if |elements| == 1 then "(" + Repr(elements[0]) + ",)"
    else "(" + JoinReprs(List(elements), 0) + ")"
  }
}
