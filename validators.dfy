/**
  The validator factories of validators.py. Each factory returns a stateless
  one-argument function that yields None when the value passes and an error
  message when it fails; the schema's `validates` entry holds such functions.
 */
module Validators {
  import opened PyValues

  /** A validation function: None on success, an error message on failure. */
  type Validator = Value -> Option<string>

  /** `value in args` for the tuple `args`. */
  predicate InArgs(value: Value, args: seq<Value>)
  {
    exists i | 0 <= i < |args| :: PyEq(value, args[i])
  }

  /** The message `one_of` gives for a value outside its arguments. */
  function NotInListMessage(value: Value, args: seq<Value>): string
  {
    "'" + Show(value) + "' is not in the list " + ReprTuple(args)
  }

  /** `one_of(*args)`: accepts exactly the values equal to one of `args`. */
  function OneOf(args: seq<Value>): (check: Validator)
    ensures forall v :: check(v).None? <==> InArgs(v, args)
    ensures forall v :: check(v).Some? ==> check(v).value == NotInListMessage(v, args)
  {
    v => if InArgs(v, args) then None else Some(NotInListMessage(v, args))
  }

  /** Each argument of `one_of` is accepted. */
  lemma OneOfAcceptsArguments(args: seq<Value>, i: nat)
    requires i < |args|
    ensures OneOf(args)(args[i]) == None
  {
    PyEqReflexive(args[i]);
  }

  /** `one_of` does not flatten a list argument: `one_of([a, b])` holds the
      one-element tuple `([a, b],)`, so neither `a` nor `b` is accepted unless
      it is itself a list. */
  lemma OneOfDoesNotFlatten(elements: seq<Value>, i: nat)
    requires i < |elements| && !elements[i].List?
    ensures OneOf([List(elements)])(elements[i]).Some?
  {
  }

  /** `v < bound` in Python 2 for an integer bound: None sorts before every
      number, and every other non-number after every number. */
  predicate LessThanBound(v: Value, bound: int)
  {
    match NumericValue(v)
    case Some(n) => n < bound
    case None => v.Null?
  }

  /** `v > bound` in Python 2 for an integer bound. */
  predicate GreaterThanBound(v: Value, bound: int)
  {
    match NumericValue(v)
    case Some(n) => n > bound
    case None => !v.Null?
  }

  /** `gte(minValue)`: fails exactly when `v < minValue`. */
  function Gte(minValue: int): (check: Validator)
    ensures forall v :: check(v).None? <==> !LessThanBound(v, minValue)
    ensures forall v :: check(v).Some? ==>
      check(v).value == Show(v) + " is less than the minimum value of " + IntToString(minValue)
  {
    v => if LessThanBound(v, minValue) then
           Some(Show(v) + " is less than the minimum value of " + IntToString(minValue))
         else None
  }

  /** `lte(maxValue)`: fails exactly when `v > maxValue`. */
  function Lte(maxValue: int): (check: Validator)
    ensures forall v :: check(v).None? <==> !GreaterThanBound(v, maxValue)
    ensures forall v :: check(v).Some? ==>
      check(v).value == Show(v) + " is greater than the maximum value of " + IntToString(maxValue)
  {
    v => if GreaterThanBound(v, maxValue) then
           Some(Show(v) + " is greater than the maximum value of " + IntToString(maxValue))
         else None
  }

  /** On numbers, `gte(m)` accepts exactly `v >= m`: the bound itself passes. */
  lemma GteOnNumbers(minValue: int, v: Value)
    requires NumericValue(v).Some?
    ensures Gte(minValue)(v).None? <==> minValue <= NumericValue(v).value
  {
  }

  /** On numbers, `lte(m)` accepts exactly `v <= m`: the bound itself passes. */
  lemma LteOnNumbers(maxValue: int, v: Value)
    requires NumericValue(v).Some?
    ensures Lte(maxValue)(v).None? <==> NumericValue(v).value <= maxValue
  {
  }

  /** `gte(lo)` and `lte(hi)` together accept exactly the numbers in
      [lo, hi]: None fails `gte`, and every other non-number fails `lte`. */
  lemma BetweenBounds(lo: int, hi: int, v: Value)
    ensures (Gte(lo)(v).None? && Lte(hi)(v).None?)
        <==> (NumericValue(v).Some? && lo <= NumericValue(v).value <= hi)
  {
  }
}
