/**
 * The filter builder of filter.go: the `field[op]` key grammar over the
 * six-entry operator table, coercion of the value to the field's declared
 * type, and dispatch of the field's validation function.
 *
 * `parseFilter` is a method on Query that only appends to `Filters`; the
 * model takes and returns that sequence, so the rest of the query is
 * untouched by construction.
 */
module FilterBuilder {
  import opened Wrappers
  import opened Values
  import opened Errors
  import opened GoStrings
  import opened Strconv
  import opened Validations

  /** `FilterMethod`; `Label` is the string constant the source gives each method. */
  datatype Method = EQ | NE | GT | LT | GTE | LTE {
    function Label(): string {
      match this
      case EQ => "equal"
      case NE => "not_equal"
      case GT => "greater_than"
      case LT => "lowwer_than"
      case GTE => "greater_than_equal"
      case LTE => "lowwer_than_equal"
    }
  }

  /** The six labels are distinct, so a filter's method is determined by the string Go stores. */
  lemma LabelInjective(m1: Method, m2: Method)
    ensures m1.Label() == m2.Label() <==> m1 == m2
  {
  }

  /** `allowedMethods`: the operator tokens accepted between brackets. */
  const AllowedMethods: map<string, Method> :=
    map["eq" := EQ, "ne" := NE, "gt" := GT, "lt" := LT, "gte" := GTE, "lte" := LTE]

  /** The token that selects a method. */
  function Token(m: Method): string {
    match m
    case EQ => "eq"
    case NE => "ne"
    case GT => "gt"
    case LT => "lt"
    case GTE => "gte"
    case LTE => "lte"
  }

  /** The operator table is a bijection between its six tokens and the six methods. */
  lemma AllowedMethodsBijective()
    ensures forall m: Method :: Token(m) in AllowedMethods && AllowedMethods[Token(m)] == m
    ensures forall t :: t in AllowedMethods ==> Token(AllowedMethods[t]) == t
    ensures |AllowedMethods| == 6
  {
    assert AllowedMethods.Keys == {"eq", "ne", "gt", "lt", "gte", "lte"};
  }

  datatype Filter = Filter(name: string, op: Method, value: Value)

  // ---------------------------------------------------------------- key and operator

  /** `setKeyAndOperotor`: the field is the text before the first `[`; the operator token is
      the text between the first and second `[` with trailing `]`s removed, looked up in the
      table; a key with no `[` is an equality on the whole key. */
  function SetKeyAndOperator(rawKey: string): (r: Result<(string, Method), Err>)
    ensures '[' !in rawKey ==> r == Success((rawKey, EQ))
    ensures r.Success? ==> '[' !in r.value.0 && r.value.0 <= rawKey
    ensures r.Failure? ==> r.error == UnknownMethod && '[' in rawKey
  {
    var parts := Split(rawKey, '[');
    var field := parts[0];
    SplitFirst(rawKey, '[');
    if |parts| > 1 then
      var token := TrimRightChar(parts[1], ']');
      if token in AllowedMethods then Success((field, AllowedMethods[token]))
      else Failure(UnknownMethod)
    else
      Success((field, EQ))
  }

  /** The key grammar read from the other side: for a field without `[`, a token that does not
      end in `]`, any run of closing brackets and a tail that is empty or opens another `[`,
      the key resolves to the field and the token's method, or fails with ErrUnknownMethod
      when the token is not in the table. A missing `]` (`id[gt`) and a trailing `[...`
      (`id[gt][x`) are accepted. */
  lemma {:induction false} KeyGrammar(name: string, token: string, closers: string, tail: string)
    requires '[' !in name && '[' !in token
    requires token == [] || token[|token| - 1] != ']'
    requires AllChar(closers, ']')
    requires tail == [] || tail[0] == '['
    ensures SetKeyAndOperator(name + "[" + token + closers + tail)
         == if token in AllowedMethods then Success((name, AllowedMethods[token])) else Failure(UnknownMethod)
  {
    var key := name + "[" + token + closers + tail;
    assert key == name + ['['] + ((token + closers) + tail);
    SplitAtFirst(name, '[', (token + closers) + tail);
    assert '[' !in token + closers;
    SplitHead(token + closers, '[', tail);
    TrimRightCharRun(token, ']', closers);
  }

  /** The canonical key for a field and method. */
  function KeyOf(name: string, m: Method): string {
    name + "[" + Token(m) + "]"
  }

  /** Reading back a canonical key gives its field and method. */
  lemma KeyOfRoundTrip(name: string, m: Method)
    requires '[' !in name
    ensures SetKeyAndOperator(KeyOf(name, m)) == Success((name, m))
  {
    AllowedMethodsBijective();
    KeyGrammar(name, Token(m), "]", "");
    assert name + "[" + Token(m) + "]" + "" == KeyOf(name, m);
  }

  // ---------------------------------------------------------------- value

  /** The coercion inside `setValue`: `Atoi` for "int", `ParseBool` for "bool", the string
      itself for any other type. */
  function Coerce(valueType: string, raw: string): (r: Result<Value, Err>)
    ensures valueType == "int" ==>
      && (r.Success? <==> IsDecimal(raw) && InIntRange(DecimalValue(raw)))
      && (r.Success? ==> r.value == Int(DecimalValue(raw)))
    ensures valueType == "bool" ==>
      && (r.Success? <==> IsTrueLiteral(raw) || IsFalseLiteral(raw))
      && (r.Success? ==> r.value == Bool(IsTrueLiteral(raw)))
    ensures valueType != "int" && valueType != "bool" ==> r == Success(Str(raw))
    ensures r.Failure? ==> r.error.NumError? && r.error.num == raw
  {
    if valueType == "int" then
      var n :- Atoi(raw);
      Success(Int(n))
    else if valueType == "bool" then
      var b :- ParseBool(raw);
      Success(Bool(b))
    else
      Success(Str(raw))
  }

  /** Coercion reads back what `Itoa`, `FormatBool` or the identity wrote. */
  lemma CoerceRoundTrip(n: int, b: bool, s: string, other: string)
    requires InIntRange(n)
    requires other != "int" && other != "bool"
    ensures Coerce("int", Itoa(n)) == Success(Int(n))
    ensures Coerce("bool", FormatBool(b)) == Success(Bool(b))
    ensures Coerce(other, s) == Success(Str(s))
  {
    AtoiItoa(n);
    ParseBoolFormatBool(b);
  }

  /** `Filter.setValue`: stores the coerced value and keeps name and method; on a coercion
      error the filter is returned unchanged. */
  function SetValue(f: Filter, valueType: string, raw: string): (r: (Filter, Option<Err>))
    ensures r.0.name == f.name && r.0.op == f.op
    ensures r.1.Some? <==> Coerce(valueType, raw).Failure?
    ensures r.1.Some? ==> r.0 == f && r.1.value.NumError?
    ensures r.1.None? ==> r.0.value == Coerce(valueType, raw).value
  {
    match Coerce(valueType, raw)
    case Success(v) => (f.(value := v), None)
    case Failure(e) => (f, Some(e))
  }

  // ---------------------------------------------------------------- validation

  /** The arguments `Filter.validate` passes to the validation function, in call order:
      each element of a `[]int` or `[]string`, the value itself for an int, bool or string,
      nothing for any other dynamic type. */
  function Args(v: Value): (xs: seq<Value>)
    ensures v.IntSeq? ==> |xs| == |v.ints| && forall i :: 0 <= i < |xs| ==> xs[i] == Int(v.ints[i])
    ensures v.StrSeq? ==> |xs| == |v.strs| && forall i :: 0 <= i < |xs| ==> xs[i] == Str(v.strs[i])
    ensures v.Int? || v.Bool? || v.Str? ==> xs == [v]
    ensures v.Nil? ==> xs == []
  {
    match v
    case IntSeq(ints) => seq(|ints|, i requires 0 <= i < |ints| => Int(ints[i]))
    case StrSeq(strs) => seq(|strs|, i requires 0 <= i < |strs| => Str(strs[i]))
    case Int(_) => [v]
    case Bool(_) => [v]
    case Str(_) => [v]
    case Nil => []
  }

  /** The calls a validation loop made, and the error it stopped on. */
  datatype Trace = Trace(calls: seq<Value>, err: Option<Err>)

  /** Calls the validation function on each argument in order, stopping at the first error.
      The calls made are a prefix of the arguments; the whole list exactly when every call
      succeeded; otherwise they end at the first rejected argument, whose error is returned. */
  function CheckEach(vf: Validator, xs: seq<Value>): (t: Trace)
    ensures |t.calls| <= |xs| && t.calls == xs[..|t.calls|]
    ensures t.err.None? <==> forall i :: 0 <= i < |xs| ==> Accepts(vf, xs[i])
    ensures t.err.None? ==> t.calls == xs
    ensures t.err.Some? ==>
      && |t.calls| > 0
      && t.err == Apply(vf, t.calls[|t.calls| - 1])
      && forall i :: 0 <= i < |t.calls| - 1 ==> Accepts(vf, t.calls[i])
  {
    if |xs| == 0 then Trace([], None)
    else
      var e := Apply(vf, xs[0]);
      if e.Some? then Trace([xs[0]], e)
      else
        var rest := CheckEach(vf, xs[1..]);
        assert forall i :: 1 <= i < |xs| ==> xs[i] == xs[1..][i - 1];
        Trace([xs[0]] + rest.calls, rest.err)
  }

  /** `Filter.validate`. */
  function Validate(f: Filter, vf: Validator): (t: Trace)
    ensures t.err.None? <==> forall i :: 0 <= i < |Args(f.value)| ==> Accepts(vf, Args(f.value)[i])
    ensures (f.value.Int? || f.value.Bool? || f.value.Str?) ==>
      t == Trace([f.value], Apply(vf, f.value))
  {
    CheckEach(vf, Args(f.value))
  }

  // ---------------------------------------------------------------- newFilter / parseFilter

  /** `newFilter`: key and operator first, then coercion to the declared type, then the
      field's validation function if it has one. An earlier error pre-empts every later step. */
  function NewFilter(rawKey: string, value: string, vs: Registry): (r: Result<Filter, Err>)
    ensures SetKeyAndOperator(rawKey).Failure? ==> r == Failure(UnknownMethod)
    ensures r.Success? ==>
      && SetKeyAndOperator(rawKey) == Success((r.value.name, r.value.op))
      && Coerce(GetFieldType(vs, r.value.name), value) == Success(r.value.value)
      && (GetValidFunc(vs, r.value.name).Some? ==> Accepts(GetValidFunc(vs, r.value.name).value, r.value.value))
    ensures SetKeyAndOperator(rawKey).Success? ==>
      var name := SetKeyAndOperator(rawKey).value.0;
      var op := SetKeyAndOperator(rawKey).value.1;
      var c := Coerce(GetFieldType(vs, name), value);
      var vf := GetValidFunc(vs, name);
      && (r.Success? <==> c.Success? && (vf.None? || Accepts(vf.value, c.value)))
      && (r.Success? ==> r.value == Filter(name, op, c.value))
      && (c.Failure? ==> r == Failure(c.error))
      && (c.Success? && vf.Some? && !Accepts(vf.value, c.value) ==> r == Failure(Apply(vf.value, c.value).value))
  {
    var key :- SetKeyAndOperator(rawKey);
    var f := Filter(key.0, key.1, Nil);
    var (f', err) := SetValue(f, GetFieldType(vs, f.name), value);
    if err.Some? then Failure(err.value)
    else
      match GetValidFunc(vs, f.name)
      case None => Success(f')
      case Some(vf) =>
        var t := Validate(f', vf);
        if t.err.Some? then Failure(t.err.value) else Success(f')
  }

  /** A registry whose lookups give the field the type `typ` and either no validation
      function or one that accepts the value. */
  predicate DeclaresOnly(vs: Registry, name: string, typ: string, v: Value) {
    && GetFieldType(vs, name) == typ
    && (GetValidFunc(vs, name).None? || Accepts(GetValidFunc(vs, name).value, v))
  }

  /** A well-formed `field[op]=value` whose value coerces under the field's declared type and
      passes its validation builds exactly the filter `{field, op, value}`. */
  lemma NewFilterWellFormed(name: string, m: Method, n: int, b: bool, s: string, vs: Registry)
    requires '[' !in name
    requires InIntRange(n)
    ensures DeclaresOnly(vs, name, "int", Int(n)) ==>
      NewFilter(KeyOf(name, m), Itoa(n), vs) == Success(Filter(name, m, Int(n)))
    ensures DeclaresOnly(vs, name, "bool", Bool(b)) ==>
      NewFilter(KeyOf(name, m), FormatBool(b), vs) == Success(Filter(name, m, Bool(b)))
    ensures DeclaresOnly(vs, name, "string", Str(s)) ==>
      NewFilter(KeyOf(name, m), s, vs) == Success(Filter(name, m, Str(s)))
  {
    KeyOfRoundTrip(name, m);
    CoerceRoundTrip(n, b, s, "string");
  }

  /** For a field declared int, a value that is not base-10 integer syntax fails with the
      parse error of `Atoi`, whatever the operator and the validation function. */
  lemma NonNumericIntFails(rawKey: string, value: string, vs: Registry)
    requires !IsDecimal(value)
    ensures SetKeyAndOperator(rawKey).Success? && GetFieldType(vs, SetKeyAndOperator(rawKey).value.0) == "int" ==>
      NewFilter(rawKey, value, vs) == Failure(NumError("Atoi", value))
  {
  }

  /** An error a caller's validation function builds reaches the caller of `newFilter` as it
      is: for a field registered without a type, a rejected value gives exactly that error. */
  lemma CustomErrorPassesThrough(name: string, value: string, check: Value -> Option<Err>, text: string)
    requires '[' !in name && ':' !in name
    requires check(Str(value)) == Some(Message(text))
    ensures NewFilter(name, value, [(name, Some(Custom(check)))]) == Failure(Message(text))
  {
    var vs := [(name, Some(Custom(check)))];
    SplitNoSeparator(name, '[');
    assert !KeyTypes(vs[0].0, name);
    assert KeyNames(vs[0].0, name);
  }

  /** What `parseFilter` does with the outcome of building a filter: a built filter is appended
      after the untouched earlier ones; an error leaves them unchanged and is wrapped with
      `key: <key>`. */
  function AddFilter(filters: seq<Filter>, key: string, built: Result<Filter, Err>): (r: (seq<Filter>, Option<Err>))
    ensures r.1.None? <==> built.Success?
    ensures r.1.None? ==> r.0 == filters + [built.value]
    ensures r.1.Some? ==> r.0 == filters && r.1.value == Wrapped(Text("key: " + key), built.error)
  {
    match built
    case Success(f) => (filters + [f], None)
    case Failure(e) => (filters, Some(Wrapped(Text("key: " + key), e)))
  }

  /** `Query.parseFilter`: trims the value and builds the filter; on success it is appended
      after the untouched earlier filters, on failure the filters are unchanged and the cause
      is wrapped with `key: <key>`. */
  function ParseFilter(filters: seq<Filter>, vs: Registry, key: string, value: string): (r: (seq<Filter>, Option<Err>))
    ensures r.1.None? <==> NewFilter(key, TrimSpace(value), vs).Success?
    ensures r.1.None? ==> r.0 == filters + [NewFilter(key, TrimSpace(value), vs).value]
    ensures r.1.Some? ==>
      && r.0 == filters
      && r.1.value == Wrapped(Text("key: " + key), NewFilter(key, TrimSpace(value), vs).error)
  {
    AddFilter(filters, key, NewFilter(key, TrimSpace(value), vs))
  }
}
