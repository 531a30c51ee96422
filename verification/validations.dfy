/**
 * The validation registry (`Validations` in validations.go): a map from
 * declaration keys `name[:type[:...]]` to optional validation functions, the
 * two lookups the filter builder makes in it, and the built-in validators.
 *
 * A Go map is iterated in an unspecified order; the registry is modelled as
 * a sequence of entries and a lookup returns the first match in that
 * sequence, so every property below holds for every order of the entries.
 */
module Validations {
  import opened Wrappers
  import opened Values
  import opened Errors
  import opened GoStrings

  /** A `ValidationFunc`: one of the package's constructors, or a caller-supplied closure
      that the model only observes through the error it returns. */
  datatype Validator =
    | Min(min: int)
    | Max(max: int)
    | MinMax(lo: int, hi: int)
    | NotEmpty
    | In(values: seq<Value>)
    | Custom(check: Value -> Option<Err>)

  /** A registry entry's value may be nil (`"id:int": nil` only declares a type). */
  type Entry = (string, Option<Validator>)
  type Registry = seq<Entry>

  /** The error every built-in validator returns: the value wrapped around ErrNotInScope. */
  function OutOfScope(v: Value): Err {
    Wrapped(Shown(v), NotInScope)
  }

  /** Calls a validation function on one value; `None` is a nil error. */
  function Apply(vf: Validator, v: Value): (r: Option<Err>)
    ensures !vf.Custom? && r.Some? ==> r.value == OutOfScope(v)
  {
    match vf
    case Min(min) => if v.Int? && v.i >= min then None else Some(OutOfScope(v))
    case Max(max) => if v.Int? && v.i <= max then None else Some(OutOfScope(v))
    case MinMax(lo, hi) => if v.Int? && lo <= v.i && v.i <= hi then None else Some(OutOfScope(v))
    case NotEmpty => if v.Str? && |v.s| > 0 then None else Some(OutOfScope(v))
    case In(values) => if v in values then None else Some(OutOfScope(v))
    case Custom(check) => check(v)
  }

  predicate Accepts(vf: Validator, v: Value) {
    Apply(vf, v).None?
  }

  /** `Min(n)` accepts exactly the ints at least `n`; `Max(m)` exactly the ints at most `m`;
      a rejection's root cause is ErrNotInScope. */
  lemma MinMaxBounds(n: int, v: Value)
    ensures Accepts(Min(n), v) <==> v.Int? && v.i >= n
    ensures Accepts(Max(n), v) <==> v.Int? && v.i <= n
    ensures !Accepts(Min(n), v) ==> Root(Apply(Min(n), v).value) == NotInScope
    ensures !Accepts(Max(n), v) ==> Root(Apply(Max(n), v).value) == NotInScope
  {
  }

  /** `MinMax(lo, hi)` is the conjunction of `Min(lo)` and `Max(hi)`, so it accepts nothing
      when `lo > hi`. */
  lemma MinMaxIsBoth(lo: int, hi: int, v: Value)
    ensures Accepts(MinMax(lo, hi), v) <==> Accepts(Min(lo), v) && Accepts(Max(hi), v)
    ensures lo > hi ==> !Accepts(MinMax(lo, hi), v)
  {
  }

  /** `NotEmpty` accepts exactly the non-empty strings. */
  lemma NotEmptyAccepts(v: Value)
    ensures Accepts(NotEmpty, v) <==> exists s: string :: v == Str(s) && |s| > 0
  {
    if v.Str? {
      assert v == Str(v.s);
    }
  }

  /** `In(xs)` accepts exactly the members of `xs`, compared by dynamic type and value:
      the string "1" is not the int 1. */
  lemma InAccepts(xs: seq<Value>, v: Value)
    ensures Accepts(In(xs), v) <==> exists i :: 0 <= i < |xs| && xs[i] == v
    ensures !Accepts(In(xs), v) ==> Root(Apply(In(xs), v).value) == NotInScope
    ensures !Accepts(In([Str("1")]), Int(1))
  {
    if v in xs {
      var i :| 0 <= i < |xs| && xs[i] == v;
    }
  }

  // ---------------------------------------------------------------- GetValidFunc

  /** A key declares `name` when `name` is its text before the first `:` (the whole key
      when it has none). This is how GetValidFunc compares, written as the two branches
      of the source. */
  predicate KeyNames(k: string, name: string) {
    if ':' in k then Split(k, ':')[0] == name else k == name
  }

  /** Both branches of `KeyNames` are "the text before the first colon is the name". */
  lemma KeyNamesBeforeColon(k: string, name: string)
    ensures KeyNames(k, name) <==> Split(k, ':')[0] == name
  {
    if ':' !in k {
      SplitNoSeparator(k, ':');
    }
  }

  /** `Validations.GetValidFunc`: the value of the first entry whose key names the field,
      nil when no key names it. */
  function GetValidFunc(vs: Registry, name: string): (r: Option<Validator>)
    ensures r.Some? ==> exists i :: 0 <= i < |vs| && KeyNames(vs[i].0, name) && vs[i].1 == r
    ensures (forall i :: 0 <= i < |vs| ==> !KeyNames(vs[i].0, name)) ==> r.None?
    ensures forall i :: 0 <= i < |vs| && KeyNames(vs[i].0, name) && (forall j :: 0 <= j < i ==> !KeyNames(vs[j].0, name))
              ==> r == vs[i].1
  {
    if |vs| == 0 then None
    else if KeyNames(vs[0].0, name) then vs[0].1
    else
      var r := GetValidFunc(vs[1..], name);
      assert forall i :: 1 <= i < |vs| ==> vs[i] == vs[1..][i - 1];
      r
  }

  /** When exactly one key names the field, its value is returned whatever the order. */
  lemma GetValidFuncUnique(vs: Registry, name: string, i: nat)
    requires i < |vs| && KeyNames(vs[i].0, name)
    requires forall j :: 0 <= j < |vs| && j != i ==> !KeyNames(vs[j].0, name)
    ensures GetValidFunc(vs, name) == vs[i].1
  {
  }

  // ---------------------------------------------------------------- GetFieldType

  /** A key declares a type for `name`: it has a colon and its first segment is `name`. */
  predicate KeyTypes(k: string, name: string) {
    ':' in k && Split(k, ':')[0] == name
  }

  /** The type a typed key declares: its second segment, with `i`/`b` as abbreviations,
      and `string` for anything else. */
  function DeclaredType(k: string): (t: string)
    requires ':' in k
    ensures t in {"int", "bool", "string"}
  {
    var segment := Split(k, ':')[1];
    if segment == "int" || segment == "i" then "int"
    else if segment == "bool" || segment == "b" then "bool"
    else "string"
  }

  /** `Validations.GetFieldType`: the declared type of the first typed key of the field,
      `string` when there is none. */
  function GetFieldType(vs: Registry, name: string): (t: string)
    ensures t in {"int", "bool", "string"}
    ensures (forall i :: 0 <= i < |vs| ==> !KeyTypes(vs[i].0, name)) ==> t == "string"
    ensures t != "string" ==> exists i :: 0 <= i < |vs| && KeyTypes(vs[i].0, name) && DeclaredType(vs[i].0) == t
    ensures forall i :: 0 <= i < |vs| && KeyTypes(vs[i].0, name) && (forall j :: 0 <= j < i ==> !KeyTypes(vs[j].0, name))
              ==> t == DeclaredType(vs[i].0)
  {
    if |vs| == 0 then "string"
    else if KeyTypes(vs[0].0, name) then DeclaredType(vs[0].0)
    else
      var t := GetFieldType(vs[1..], name);
      assert forall i :: 1 <= i < |vs| ==> vs[i] == vs[1..][i - 1];
      t
  }

  /** A typed key's second segment decides: `int`/`i` give "int", `bool`/`b` give "bool",
      anything else (`required`, an empty segment, a misspelling) gives "string". */
  lemma DeclaredTypeOfSegments(name: string, segment: string, rest: string)
    requires ':' !in name && ':' !in segment
    ensures var k := name + ":" + segment + rest;
      (rest == [] || rest[0] == ':') ==>
        && KeyTypes(k, name)
        && DeclaredType(k) == (if segment in {"int", "i"} then "int"
                               else if segment in {"bool", "b"} then "bool"
                               else "string")
  {
    var k := name + ":" + segment + rest;
    if rest == [] || rest[0] == ':' {
      assert k == name + [':'] + (segment + rest);
      SplitAtFirst(name, ':', segment + rest);
      SplitHead(segment, ':', rest);
    }
  }

  /** Keys without a colon never influence the declared type: dropping them changes nothing. */
  lemma {:induction false} GetFieldTypeIgnoresUntyped(vs: Registry, name: string)
    ensures GetFieldType(vs, name) == GetFieldType(TypedOnly(vs), name)
  {
    if |vs| > 0 {
      GetFieldTypeIgnoresUntyped(vs[1..], name);
      if ':' in vs[0].0 {
        assert TypedOnly(vs) == [vs[0]] + TypedOnly(vs[1..]);
        assert TypedOnly(vs)[1..] == TypedOnly(vs[1..]);
      }
    }
  }

  /** The entries whose key contains a colon, in order. */
  function TypedOnly(vs: Registry): (r: Registry)
    ensures forall i :: 0 <= i < |r| ==> ':' in r[i].0
  {
    if |vs| == 0 then []
    else if ':' in vs[0].0 then [vs[0]] + TypedOnly(vs[1..])
    else TypedOnly(vs[1..])
  }

  /** When exactly one typed key declares the field, its type is returned whatever the order. */
  lemma GetFieldTypeUnique(vs: Registry, name: string, i: nat)
    requires i < |vs| && KeyTypes(vs[i].0, name)
    requires forall j :: 0 <= j < |vs| && j != i ==> !KeyTypes(vs[j].0, name)
    ensures GetFieldType(vs, name) == DeclaredType(vs[i].0)
  {
  }

  // ---------------------------------------------------------------- exact lookup

  /** `vs[key]` on the Go map: the value stored under exactly this key, nil if absent. */
  function Lookup(vs: Registry, key: string): (r: Option<Validator>)
    ensures (forall i :: 0 <= i < |vs| ==> vs[i].0 != key) ==> r.None?
    ensures forall i :: 0 <= i < |vs| && vs[i].0 == key && (forall j :: 0 <= j < i ==> vs[j].0 != key)
              ==> r == vs[i].1
  {
    if |vs| == 0 then None
    else if vs[0].0 == key then vs[0].1
    else
      var r := Lookup(vs[1..], key);
      assert forall i :: 1 <= i < |vs| ==> vs[i] == vs[1..][i - 1];
      r
  }
}
