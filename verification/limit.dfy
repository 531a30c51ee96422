/**
 * `Query.parseLimit` of limit.go. The method assigns only `Limit`; the model
 * takes the current limit and returns the new one with the error.
 */
module LimitParser {
  import opened Wrappers
  import opened Values
  import opened Errors
  import opened Strconv
  import opened Validations

  /** Accepts exactly one value that is non-empty, parses as an `int` and is positive, then
      gives it to the optional validation function. Arity, emptiness and syntax errors are
      ErrBadFormat; a parsed value at most zero is ErrNotInScope wrapped with the value, found
      before the validation function runs; the validation function's error passes through.
      On any error the limit is unchanged. */
  function ParseLimit(limit: int, values: seq<string>, vf: Option<Validator>): (r: (int, Option<Err>))
    ensures r.1.None? <==>
      && |values| == 1
      && IsDecimal(values[0]) && InIntRange(DecimalValue(values[0]))
      && DecimalValue(values[0]) > 0
      && (vf.None? || Accepts(vf.value, Int(DecimalValue(values[0]))))
    ensures r.1.None? ==> r.0 == DecimalValue(values[0]) && r.0 > 0
    ensures r.1.Some? ==> r.0 == limit
    ensures |values| != 1 ==> r.1 == Some(BadFormat)
    ensures |values| == 1 && !(IsDecimal(values[0]) && InIntRange(DecimalValue(values[0]))) ==> r.1 == Some(BadFormat)
    ensures |values| == 1 && IsDecimal(values[0]) && InIntRange(DecimalValue(values[0])) ==>
      var n := DecimalValue(values[0]);
      && (n <= 0 ==> r.1 == Some(Wrapped(Shown(Int(n)), NotInScope)))
      && (n > 0 && vf.Some? && !Accepts(vf.value, Int(n)) ==> r.1 == Apply(vf.value, Int(n)))
  {
    if |values| != 1 then (limit, Some(BadFormat))
    else if |values[0]| == 0 then (limit, Some(BadFormat))
    else
      match Atoi(values[0])
      case Failure(_) => (limit, Some(BadFormat))
      case Success(i) =>
        if i <= 0 then (limit, Some(Wrapped(Shown(Int(i)), NotInScope)))
        else if vf.Some? && Apply(vf.value, Int(i)).Some? then (limit, Apply(vf.value, Int(i)))
        else (i, None)
  }

  /** Every positive `int`, written by `Itoa`, is read back as the new limit when no
      validation function is registered; zero and negative values are rejected as out of
      scope whatever the validation function. */
  lemma ParseLimitItoa(limit: int, n: int, vf: Option<Validator>)
    requires InIntRange(n)
    ensures n > 0 ==> ParseLimit(limit, [Itoa(n)], None) == (n, None)
    ensures n <= 0 ==> ParseLimit(limit, [Itoa(n)], vf) == (limit, Some(Wrapped(Shown(Int(n)), NotInScope)))
  {
    AtoiItoa(n);
  }
}
