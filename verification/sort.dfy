/**
 * `Query.parseSort` of sort.go: one `field.asc` / `field.desc` entry per
 * value. The method assigns only `Sorts`; the model takes the current sorts
 * and returns the new ones with the error.
 */
module SortParser {
  import opened Wrappers
  import opened Values
  import opened Errors
  import opened GoStrings
  import opened Validations

  datatype Sort = Sort(field: string, desc: bool)

  /** The entry that reads back as the given sort. */
  function FormatSort(s: Sort): string {
    s.field + "." + (if s.desc then "desc" else "asc")
  }

  /** One entry: it must split on `.` into exactly two parts, the second exactly `asc` or
      `desc`; the validation function, if any, sees only the field. A parsed entry is the
      sort it formats back to, and its field has no dot. */
  function ParseSortEntry(v: string, vf: Option<Validator>): (r: Result<Sort, Err>)
    ensures Count(v, '.') != 1 ==> r == Failure(InvalidSortField)
    ensures r.Success? ==> '.' !in r.value.field && FormatSort(r.value) == v
    ensures r.Success? && vf.Some? ==> Accepts(vf.value, Str(r.value.field))
    ensures Count(v, '.') == 1 ==>
      var field, order := Split(v, '.')[0], Split(v, '.')[1];
      && (order != "asc" && order != "desc" ==> r == Failure(InvalidSortOrder))
      && ((order == "asc" || order == "desc") && vf.Some? && !Accepts(vf.value, Str(field)) ==>
            r == Failure(Apply(vf.value, Str(field)).value))
  {
    var splits := Split(v, '.');
    if |splits| != 2 then Failure(InvalidSortField)
    else
      var field, order := splits[0], splits[1];
      assert v == field + "." + order by {
        assert splits == [field] + [order];
        JoinCons(field, [order], '.');
      }
      if order != "desc" && order != "asc" then Failure(InvalidSortOrder)
      else if vf.Some? && Apply(vf.value, Str(field)).Some? then Failure(Apply(vf.value, Str(field)).value)
      else Success(Sort(field, order == "desc"))
  }

  /** Every sort whose field has no dot is read back from its formatted entry, subject only
      to the validation function on the field. */
  lemma SortEntryRoundTrip(s: Sort, vf: Option<Validator>)
    requires '.' !in s.field
    ensures ParseSortEntry(FormatSort(s), vf)
         == if vf.Some? && !Accepts(vf.value, Str(s.field)) then Failure(Apply(vf.value, Str(s.field)).value)
            else Success(s)
  {
    var order := if s.desc then "desc" else "asc";
    assert FormatSort(s) == s.field + ['.'] + order;
    SplitAtFirst(s.field, '.', order);
    SplitNoSeparator(order, '.');
  }

  /** The entries in order, stopping at the first error. */
  function ParseSorts(values: seq<string>, vf: Option<Validator>): (r: Result<seq<Sort>, Err>)
    ensures r.Success? <==> forall i :: 0 <= i < |values| ==> ParseSortEntry(values[i], vf).Success?
    ensures r.Success? ==>
      && |r.value| == |values|
      && forall i :: 0 <= i < |values| ==> ParseSortEntry(values[i], vf) == Success(r.value[i])
    ensures r.Failure? ==>
      exists i :: 0 <= i < |values|
        && ParseSortEntry(values[i], vf) == Failure(r.error)
        && forall j :: 0 <= j < i ==> ParseSortEntry(values[j], vf).Success?
  {
    if |values| == 0 then Success([])
    else
      var s :- ParseSortEntry(values[0], vf);
      var rest := ParseSorts(values[1..], vf);
      assert forall i :: 1 <= i < |values| ==> values[i] == values[1..][i - 1];
      if rest.Failure? then
        var k :| 0 <= k < |values[1..]|
          && ParseSortEntry(values[1..][k], vf) == Failure(rest.error)
          && forall j :: 0 <= j < k ==> ParseSortEntry(values[1..][j], vf).Success?;
        assert ParseSortEntry(values[k + 1], vf) == Failure(rest.error);
        Failure(rest.error)
      else
        Success([s] + rest.value)
  }

  /** `Query.parseSort`: on success the sorts are replaced (not extended) by one sort per
      value, in value order; on error they are unchanged. */
  function ParseSort(sorts: seq<Sort>, values: seq<string>, vf: Option<Validator>): (r: (seq<Sort>, Option<Err>))
    ensures r.1.None? <==> forall i :: 0 <= i < |values| ==> ParseSortEntry(values[i], vf).Success?
    ensures r.1.None? ==>
      && |r.0| == |values|
      && forall i :: 0 <= i < |values| ==> FormatSort(r.0[i]) == values[i] && (r.0[i].desc <==> Split(values[i], '.')[1] == "desc")
    ensures r.1.Some? ==> r.0 == sorts
    ensures values == [] ==> r == ([], None)
  {
    match ParseSorts(values, vf)
    case Success(ss) =>
      assert forall i :: 0 <= i < |values| ==> FormatSort(ss[i]) == values[i] && (ss[i].desc <==> Split(values[i], '.')[1] == "desc") by {
        forall i | 0 <= i < |values|
          ensures FormatSort(ss[i]) == values[i] && (ss[i].desc <==> Split(values[i], '.')[1] == "desc")
        {
          var s := ss[i];
          assert ParseSortEntry(values[i], vf) == Success(s);
          SortEntryRoundTrip(s, vf);
          var order := if s.desc then "desc" else "asc";
          SplitAtFirst(s.field, '.', order);
          SplitNoSeparator(order, '.');
          assert values[i] == s.field + ['.'] + order;
        }
      }
      (ss, None)
    case Failure(e) => (sorts, Some(e))
  }
}
