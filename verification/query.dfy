/**
 * The orchestrator of query.go: the `Query` record, its builder calls, and
 * `Parse`, which walks the URL values key by key, sends `offset`, `limit` and
 * `sort` (compared case-insensitively) to their handlers and every other key's
 * non-blank values to the filter builder, and stops at the first error.
 *
 * `url.Values` is a Go map; it is modelled as a sequence of (key, values)
 * entries in the order the map happens to be iterated, and the lemmas hold
 * for every such order.
 */
module QueryParser {
  import opened Wrappers
  import opened Errors
  import opened GoStrings
  import opened Strconv
  import opened Validations
  import opened FilterBuilder
  import opened LimitParser
  import opened SortParser

  type UrlValues = seq<(string, seq<string>)>

  /** A key handler: the key's values and the registry's function for the key to the field's
      new value or an error. */
  type Handler<T> = (seq<string>, Option<Validator>) -> Result<T, Err>

  /** A filter builder: raw key, trimmed value and registry to a filter or an error. */
  type Builder = (string, string, Registry) -> Result<Filter, Err>

  /** What `Parse` dispatches to. The loop below is written and proved for any handlers, so
      that what it does rests on its own structure; `Parse` plugs in the package's own
      (`PackageHandlers`), and the lemmas `LimitHandlerAgrees` and `SortHandlerAgrees`
      show that each of them is the corresponding method of the source. */
  datatype Handlers = Handlers(offset: Handler<int>, limit: Handler<int>, sort: Handler<seq<Sort>>, build: Builder)

  datatype Query = Query(
    query: UrlValues,
    validations: Registry,
    offset: int,
    limit: int,
    sorts: seq<Sort>,
    filters: seq<Filter>)

  /** `New`: the zero Query. */
  function New(): Query {
    Query([], [], 0, 0, [], [])
  }

  function SetUrlQuery(q: Query, values: UrlValues): Query {
    q.(query := values)
  }

  function SetValidations(q: Query, vs: Registry): Query {
    q.(validations := vs)
  }

  /** Keys `Parse` hands to a dedicated handler rather than to the filter builder. */
  predicate IsReserved(key: string) {
    var lower := ToLower(key);
    lower == "offset" || lower == "limit" || lower == "sort"
  }

  /** `errors.Wrap(err, key)`, which is nil for a nil error. */
  function WrapKey(e: Option<Err>, key: string): (r: Option<Err>)
    ensures r.Some? <==> e.Some?
    ensures r.Some? ==> r.value.Wrapped? && r.value.context == Text(key) && r.value.cause == e.value
  {
    if e.Some? then Some(Wrapped(Text(key), e.value)) else None
  }

  // ---------------------------------------------------------------- the package's handlers

  /** `parseLimit` seen as a handler: the new limit, or the error that leaves it unchanged. */
  function LimitHandler(values: seq<string>, vf: Option<Validator>): Result<int, Err> {
    var (l, e) := ParseLimit(0, values, vf);
    if e.Some? then Failure(e.value) else Success(l)
  }

  /** Whatever the current limit, `parseLimit` assigns what the handler yields, or keeps the
      limit and reports the handler's error. */
  lemma LimitHandlerAgrees(limit: int, values: seq<string>, vf: Option<Validator>)
    ensures ParseLimit(limit, values, vf)
         == match LimitHandler(values, vf)
            case Success(n) => (n, None)
            case Failure(e) => (limit, Some(e))
  {
  }

  /** `parseSort` seen as a handler: the new sorts, or the error that leaves them unchanged. */
  function SortHandler(values: seq<string>, vf: Option<Validator>): Result<seq<Sort>, Err> {
    var (ss, e) := ParseSort([], values, vf);
    if e.Some? then Failure(e.value) else Success(ss)
  }

  /** Whatever the current sorts, `parseSort` assigns what the handler yields, or keeps the
      sorts and reports the handler's error. */
  lemma SortHandlerAgrees(sorts: seq<Sort>, values: seq<string>, vf: Option<Validator>)
    ensures ParseSort(sorts, values, vf)
         == match SortHandler(values, vf)
            case Success(ss) => (ss, None)
            case Failure(e) => (sorts, Some(e))
  {
  }

  /** The handlers of the package: `parseOffset` is not part of this model and is given;
      `parseLimit`, `parseSort` and `newFilter` are the modelled ones. */
  function PackageHandlers(parseOffset: Handler<int>): Handlers {
    Handlers(parseOffset, LimitHandler, SortHandler, NewFilter)
  }

  // ---------------------------------------------------------------- filter values of one key

  /** The values that trim to something, in order. */
  function NonBlank(values: seq<string>): (r: seq<string>)
    ensures |r| <= |values|
    ensures forall i :: 0 <= i < |r| ==> TrimSpace(r[i]) != [] && r[i] in values
    ensures forall x :: multiset(r)[x] == if TrimSpace(x) == [] then 0 else multiset(values)[x]
  {
    if |values| == 0 then []
    else
      assert values == [values[0]] + values[1..];
      if TrimSpace(values[0]) == [] then NonBlank(values[1..])
      else [values[0]] + NonBlank(values[1..])
  }

  /** Keeping the non-blank values distributes over concatenation, and a single value is kept
      exactly when it is not blank; together these fix `NonBlank` as the in-order selection of
      the non-blank values. */
  lemma {:induction false} NonBlankConcat(a: seq<string>, b: seq<string>)
    ensures NonBlank(a + b) == NonBlank(a) + NonBlank(b)
    ensures |a| == 1 ==> NonBlank(a) == if TrimSpace(a[0]) == [] then [] else a
  {
    if |a| == 0 {
      assert a + b == b;
    } else {
      var ab := a + b;
      assert ab[0] == a[0] && ab[1..] == a[1..] + b;
      NonBlankConcat(a[1..], b);
      if TrimSpace(a[0]) != [] {
        ConcatAssoc([a[0]], NonBlank(a[1..]), NonBlank(b));
      }
      if |a| == 1 {
        assert a[1..] == [] && [a[0]] == a;
      }
    }
  }

  /** What building each non-blank value of a key gives, trimmed, in value order. */
  function Built(vs: Registry, key: string, values: seq<string>, build: Builder): (rs: seq<Result<Filter, Err>>)
    ensures |rs| == |NonBlank(values)|
    ensures forall i :: 0 <= i < |rs| ==> rs[i] == build(key, TrimSpace(NonBlank(values)[i]), vs)
  {
    if |values| == 0 then []
    else if TrimSpace(values[0]) == [] then Built(vs, key, values[1..], build)
    else [build(key, TrimSpace(values[0]), vs)] + Built(vs, key, values[1..], build)
  }

  /** The index of the first failed outcome, or the number of outcomes when none failed. */
  function FirstFailure(rs: seq<Result<Filter, Err>>): (i: nat)
    ensures i <= |rs|
    ensures forall j :: 0 <= j < i ==> rs[j].Success?
    ensures i < |rs| ==> rs[i].Failure?
  {
    if |rs| == 0 || rs[0].Failure? then 0 else 1 + FirstFailure(rs[1..])
  }

  /** The filters of the successful outcomes, in order. */
  function Successes(rs: seq<Result<Filter, Err>>): (fs: seq<Filter>)
    ensures |fs| <= |rs|
    ensures (forall i :: 0 <= i < |rs| ==> rs[i].Success?) ==>
      |fs| == |rs| && forall i :: 0 <= i < |rs| ==> fs[i] == rs[i].value
  {
    if |rs| == 0 then []
    else if rs[0].Success? then [rs[0].value] + Successes(rs[1..])
    else Successes(rs[1..])
  }

  /** The reference for adding a key's filters: given the outcomes, every filter up to the
      first failure is appended, and that failure, wrapped with `key: <key>`, is the error.
      The error depends on the outcomes alone. */
  function Collect(filters: seq<Filter>, key: string, rs: seq<Result<Filter, Err>>): (r: (seq<Filter>, Option<Err>))
    ensures |filters| <= |r.0| && r.0[..|filters|] == filters
    ensures r.1.None? <==> FirstFailure(rs) == |rs|
    ensures r.1.None? ==> r.0 == filters + Successes(rs)
    ensures r.1.Some? ==> r.1.value == Wrapped(Text("key: " + key), rs[FirstFailure(rs)].error)
    decreases |rs|
  {
    if |rs| == 0 then (filters, None)
    else
      match rs[0]
      case Failure(e) => (filters, Some(Wrapped(Text("key: " + key), e)))
      case Success(f) =>
        var r := Collect(filters + [f], key, rs[1..]);
        assert (filters + [f])[..|filters|] == filters;
        assert r.0[..|filters|] == (filters + [f])[..|filters|];
        r
  }

  /** The inner loop of `Parse` for a non-reserved key: blank values are skipped, and every
      other value is trimmed, built and added as `parseFilter` adds it (with `newFilter` as
      the builder each step is exactly `ParseFilter`), stopping at the first error. */
  function FilterValues(filters: seq<Filter>, vs: Registry, key: string, values: seq<string>, build: Builder)
    : (r: (seq<Filter>, Option<Err>))
    decreases |values|
  {
    if |values| == 0 then (filters, None)
    else if TrimSpace(values[0]) == [] then
      FilterValues(filters, vs, key, values[1..], build)
    else
      var (fs, e) := AddFilter(filters, key, build(key, TrimSpace(values[0]), vs));
      if e.Some? then (fs, e)
      else FilterValues(fs, vs, key, values[1..], build)
  }

  /** With `newFilter` as the builder, one step of `FilterValues` is `parseFilter`. */
  lemma FilterStepIsParseFilter(filters: seq<Filter>, vs: Registry, key: string, value: string)
    ensures var b: Builder := NewFilter;
      AddFilter(filters, key, b(key, TrimSpace(value), vs)) == ParseFilter(filters, vs, key, value)
  {
  }

  /** The loop agrees with the reference: it collects the outcomes of the non-blank values.
      So earlier filters are never removed; the key succeeds exactly when every non-blank
      value builds, appending one filter per such value in order; otherwise its error is the
      first failure's, wrapped with `key: <key>`, whatever filters came before. */
  lemma {:induction false} FilterValuesCollects(filters: seq<Filter>, vs: Registry, key: string, values: seq<string>, build: Builder)
    ensures FilterValues(filters, vs, key, values, build) == Collect(filters, key, Built(vs, key, values, build))
    decreases |values|
  {
    if |values| > 0 {
      FilterValuesCollects(filters, vs, key, values[1..], build);
      var built := build(key, TrimSpace(values[0]), vs);
      if TrimSpace(values[0]) != [] && built.Success? {
        FilterValuesCollects(filters + [built.value], vs, key, values[1..], build);
        assert Built(vs, key, values, build)[1..] == Built(vs, key, values[1..], build);
      }
    }
  }

  // ---------------------------------------------------------------- one key

  /** The error one entry produces: that of the handler the lower-cased key selects, given the
      registry's function stored under exactly that lower-cased key, wrapped with the key;
      for any other key, the filter error as it is. */
  function EntryError(vs: Registry, entry: (string, seq<string>), h: Handlers): Option<Err> {
    var (key, values) := entry;
    var lower := ToLower(key);
    if lower == "offset" then WrapKey(ErrorOf(h.offset(values, Lookup(vs, lower))), key)
    else if lower == "limit" then WrapKey(ErrorOf(h.limit(values, Lookup(vs, lower))), key)
    else if lower == "sort" then WrapKey(ErrorOf(h.sort(values, Lookup(vs, lower))), key)
    else FilterValues([], vs, key, values, h.build).1
  }

  function ErrorOf<T>(r: Result<T, Err>): Option<Err> {
    if r.Failure? then Some(r.error) else None
  }

  /** The filters one entry appends when it succeeds. */
  function EntryFilters(vs: Registry, entry: (string, seq<string>), build: Builder): seq<Filter> {
    if IsReserved(entry.0) then [] else Successes(Built(vs, entry.0, entry.1, build))
  }

  /** The number of filters a successful entry appends. */
  function EntryFilterCount(entry: (string, seq<string>)): nat {
    if IsReserved(entry.0) then 0 else |NonBlank(entry.1)|
  }

  /** One iteration of `Parse`: the lower-cased key selects the offset, limit or sort handler,
      which sets only its own field and only on success; any other key goes through the
      filter loop, which only appends filters. */
  function Step(q: Query, entry: (string, seq<string>), h: Handlers): (r: (Query, Option<Err>))
    ensures r.0.query == q.query && r.0.validations == q.validations
    ensures ToLower(entry.0) != "offset" ==> r.0.offset == q.offset
    ensures ToLower(entry.0) != "limit" ==> r.0.limit == q.limit
    ensures ToLower(entry.0) != "sort" ==> r.0.sorts == q.sorts
    ensures IsReserved(entry.0) ==> r.0.filters == q.filters
    ensures |q.filters| <= |r.0.filters| && r.0.filters[..|q.filters|] == q.filters
    ensures r.1 == EntryError(q.validations, entry, h)
    ensures r.1.None? ==> r.0.filters == q.filters + EntryFilters(q.validations, entry, h.build)
    ensures r.1.None? ==> |EntryFilters(q.validations, entry, h.build)| == EntryFilterCount(entry)
    ensures r.1.None? && ToLower(entry.0) == "offset" ==>
      var out := h.offset(entry.1, Lookup(q.validations, "offset")); out.Success? && r.0.offset == out.value
    ensures r.1.None? && ToLower(entry.0) == "limit" ==>
      var out := h.limit(entry.1, Lookup(q.validations, "limit")); out.Success? && r.0.limit == out.value
    ensures r.1.None? && ToLower(entry.0) == "sort" ==>
      var out := h.sort(entry.1, Lookup(q.validations, "sort")); out.Success? && r.0.sorts == out.value
  {
    var (key, values) := entry;
    var lower := ToLower(key);
    var vs := q.validations;
    if lower == "offset" then
      match h.offset(values, Lookup(vs, lower))
      case Success(n) => (q.(offset := n), None)
      case Failure(e) => (q, WrapKey(Some(e), key))
    else if lower == "limit" then
      match h.limit(values, Lookup(vs, lower))
      case Success(n) => (q.(limit := n), None)
      case Failure(e) => (q, WrapKey(Some(e), key))
    else if lower == "sort" then
      match h.sort(values, Lookup(vs, lower))
      case Success(ss) => (q.(sorts := ss), None)
      case Failure(e) => (q, WrapKey(Some(e), key))
    else
      FilterValuesCollects(q.filters, vs, key, values, h.build);
      FilterValuesCollects([], vs, key, values, h.build);
      var (fs, e) := FilterValues(q.filters, vs, key, values, h.build);
      (q.(filters := fs), e)
  }

  // ---------------------------------------------------------------- all keys

  /** All entries of an iteration order, concatenated into the filters they append. */
  function Gathered(vs: Registry, es: UrlValues, build: Builder): seq<Filter> {
    if |es| == 0 then [] else EntryFilters(vs, es[0], build) + Gathered(vs, es[1..], build)
  }

  lemma ConcatAssoc<T>(a: seq<T>, b: seq<T>, c: seq<T>)
    ensures a + b + c == a + (b + c)
  {
  }

  lemma GatheredCons(vs: Registry, es: UrlValues, build: Builder)
    requires |es| > 0
    ensures Gathered(vs, es, build) == EntryFilters(vs, es[0], build) + Gathered(vs, es[1..], build)
  {
  }

  function TotalFilterCount(es: UrlValues): nat {
    if |es| == 0 then 0 else EntryFilterCount(es[0]) + TotalFilterCount(es[1..])
  }

  predicate AllEntriesOk(vs: Registry, es: UrlValues, h: Handlers) {
    forall i :: 0 <= i < |es| ==> EntryError(vs, es[i], h).None?
  }

  /** The loop of `Query.Parse` over the entries in iteration order, stopping at the first
      error. The query and the registry are never changed. */
  function ParseEntries(q: Query, es: UrlValues, h: Handlers): (r: (Query, Option<Err>))
    ensures r.0.query == q.query && r.0.validations == q.validations
    decreases |es|
  {
    if |es| == 0 then (q, None)
    else
      var (q1, e) := Step(q, es[0], h);
      if e.Some? then (q1, e) else ParseEntries(q1, es[1..], h)
  }

  /** The loop succeeds exactly when every entry does. The filters are never reset: the
      earlier ones stay a prefix, and on success exactly the entries' filters, in entry order,
      are appended, one per non-blank value of each filter key. */
  lemma {:induction false} ParseEntriesOutcome(q: Query, es: UrlValues, h: Handlers)
    ensures var r := ParseEntries(q, es, h);
      && |q.filters| <= |r.0.filters| && r.0.filters[..|q.filters|] == q.filters
      && (r.1.None? <==> AllEntriesOk(q.validations, es, h))
      && (r.1.None? ==> r.0.filters == q.filters + Gathered(q.validations, es, h.build))
      && (r.1.None? ==> |r.0.filters| == |q.filters| + TotalFilterCount(es))
    decreases |es|
  {
    if |es| > 0 {
      var (q1, e) := Step(q, es[0], h);
      if e.None? {
        ParseEntriesOutcome(q1, es[1..], h);
        var r := ParseEntries(q1, es[1..], h);
        assert r == ParseEntries(q, es, h);
        assert forall i :: 1 <= i < |es| ==> es[i] == es[1..][i - 1];
        assert r.0.filters[..|q.filters|] == q1.filters[..|q.filters|];
        if r.1.None? {
          GatheredCons(q.validations, es, h.build);
          ConcatAssoc(q.filters, EntryFilters(q.validations, es[0], h.build), Gathered(q.validations, es[1..], h.build));
        }
      }
    }
  }

  /** On failure the loop reports the error of the first entry that fails, whatever was
      collected before. */
  lemma {:induction false} ParseEntriesFirstError(q: Query, es: UrlValues, h: Handlers)
    ensures var r := ParseEntries(q, es, h);
      r.1.Some? ==>
        exists i :: 0 <= i < |es|
          && r.1 == EntryError(q.validations, es[i], h)
          && forall j :: 0 <= j < i ==> EntryError(q.validations, es[j], h).None?
    decreases |es|
  {
    if |es| > 0 {
      var (q1, e) := Step(q, es[0], h);
      if e.None? {
        ParseEntriesFirstError(q1, es[1..], h);
        var r := ParseEntries(q1, es[1..], h);
        assert r == ParseEntries(q, es, h);
        if r.1.Some? {
          var k :| 0 <= k < |es[1..]|
            && r.1 == EntryError(q.validations, es[1..][k], h)
            && forall j :: 0 <= j < k ==> EntryError(q.validations, es[1..][j], h).None?;
          assert es[1..][k] == es[k + 1];
          assert forall j :: 1 <= j <= k ==> es[j] == es[1..][j - 1];
        }
      }
    }
  }

  /** A field that no entry's key dispatches to keeps its value, success or not. */
  lemma {:induction false} ParseEntriesFrame(q: Query, es: UrlValues, h: Handlers)
    ensures var r := ParseEntries(q, es, h);
      && ((forall i :: 0 <= i < |es| ==> ToLower(es[i].0) != "offset") ==> r.0.offset == q.offset)
      && ((forall i :: 0 <= i < |es| ==> ToLower(es[i].0) != "limit") ==> r.0.limit == q.limit)
      && ((forall i :: 0 <= i < |es| ==> ToLower(es[i].0) != "sort") ==> r.0.sorts == q.sorts)
      && ((forall i :: 0 <= i < |es| ==> IsReserved(es[i].0)) ==> r.0.filters == q.filters)
    decreases |es|
  {
    if |es| > 0 {
      var (q1, e) := Step(q, es[0], h);
      if e.None? {
        ParseEntriesFrame(q1, es[1..], h);
        assert ParseEntries(q1, es[1..], h) == ParseEntries(q, es, h);
        assert forall i :: 1 <= i < |es| ==> es[i] == es[1..][i - 1];
      }
    }
  }

  /** The index of the last entry whose key lower-cases to `name`: the entry whose handler
      assigns the field last. */
  function LastDispatch(es: UrlValues, name: string): (r: Option<nat>)
    ensures r.Some? ==> r.value < |es| && ToLower(es[r.value].0) == name
    ensures r.Some? ==> forall j :: r.value < j < |es| ==> ToLower(es[j].0) != name
    ensures r.None? ==> forall j :: 0 <= j < |es| ==> ToLower(es[j].0) != name
  {
    if |es| == 0 then None
    else
      assert forall j :: 1 <= j < |es| ==> es[j] == es[1..][j - 1];
      match LastDispatch(es[1..], name)
      case Some(i) => Some(i + 1)
      case None => if ToLower(es[0].0) == name then Some(0) else None
  }

  /** After a successful loop the offset holds what the offset handler gave for the last key
      that lower-cases to `offset`, or its old value when no key does. */
  lemma {:induction false} ParseEntriesAssignsOffset(q: Query, es: UrlValues, h: Handlers)
    ensures var r := ParseEntries(q, es, h);
      r.1.None? ==>
        match LastDispatch(es, "offset")
        case None => r.0.offset == q.offset
        case Some(i) =>
          var out := h.offset(es[i].1, Lookup(q.validations, "offset"));
          out.Success? && r.0.offset == out.value
    decreases |es|
  {
    if |es| > 0 {
      var (q1, e) := Step(q, es[0], h);
      if e.None? {
        assert ParseEntries(q, es, h) == ParseEntries(q1, es[1..], h);
        ParseEntriesAssignsOffset(q1, es[1..], h);
        match LastDispatch(es[1..], "offset")
        case Some(i) =>
          assert LastDispatch(es, "offset") == Some(i + 1);
          assert es[i + 1] == es[1..][i];
        case None =>
          if ToLower(es[0].0) == "offset" {
            assert LastDispatch(es, "offset") == Some(0);
          } else {
            assert LastDispatch(es, "offset") == None;
          }
      }
    }
  }

  /** After a successful loop the limit holds what the limit handler gave for the last key
      that lower-cases to `limit`, or its old value when no key does. */
  lemma {:induction false} ParseEntriesAssignsLimit(q: Query, es: UrlValues, h: Handlers)
    ensures var r := ParseEntries(q, es, h);
      r.1.None? ==>
        match LastDispatch(es, "limit")
        case None => r.0.limit == q.limit
        case Some(i) =>
          var out := h.limit(es[i].1, Lookup(q.validations, "limit"));
          out.Success? && r.0.limit == out.value
    decreases |es|
  {
    if |es| > 0 {
      var (q1, e) := Step(q, es[0], h);
      if e.None? {
        assert ParseEntries(q, es, h) == ParseEntries(q1, es[1..], h);
        ParseEntriesAssignsLimit(q1, es[1..], h);
        match LastDispatch(es[1..], "limit")
        case Some(i) =>
          assert LastDispatch(es, "limit") == Some(i + 1);
          assert es[i + 1] == es[1..][i];
        case None =>
          if ToLower(es[0].0) == "limit" {
            assert LastDispatch(es, "limit") == Some(0);
          } else {
            assert LastDispatch(es, "limit") == None;
          }
      }
    }
  }

  /** After a successful loop the sorts hold what the sort handler gave for the last key
      that lower-cases to `sort`, or its old value when no key does. */
  lemma {:induction false} ParseEntriesAssignsSorts(q: Query, es: UrlValues, h: Handlers)
    ensures var r := ParseEntries(q, es, h);
      r.1.None? ==>
        match LastDispatch(es, "sort")
        case None => r.0.sorts == q.sorts
        case Some(i) =>
          var out := h.sort(es[i].1, Lookup(q.validations, "sort"));
          out.Success? && r.0.sorts == out.value
    decreases |es|
  {
    if |es| > 0 {
      var (q1, e) := Step(q, es[0], h);
      if e.None? {
        assert ParseEntries(q, es, h) == ParseEntries(q1, es[1..], h);
        ParseEntriesAssignsSorts(q1, es[1..], h);
        match LastDispatch(es[1..], "sort")
        case Some(i) =>
          assert LastDispatch(es, "sort") == Some(i + 1);
          assert es[i + 1] == es[1..][i];
        case None =>
          if ToLower(es[0].0) == "sort" {
            assert LastDispatch(es, "sort") == Some(0);
          } else {
            assert LastDispatch(es, "sort") == None;
          }
      }
    }
  }

  /** `Query.Parse`: the entry loop over the query's values with the package's handlers. */
  function Parse(q: Query, parseOffset: Handler<int>): (r: (Query, Option<Err>))
    ensures r.0.query == q.query && r.0.validations == q.validations
    ensures r.1.None? <==> AllEntriesOk(q.validations, q.query, PackageHandlers(parseOffset))
    ensures r.1.None? ==> r.0.filters == q.filters + Gathered(q.validations, q.query, NewFilter)
    ensures r.1.None? ==>
      match LastDispatch(q.query, "offset")
      case None => r.0.offset == q.offset
      case Some(i) =>
        var out := parseOffset(q.query[i].1, Lookup(q.validations, "offset"));
        out.Success? && r.0.offset == out.value
    ensures r.1.None? ==>
      match LastDispatch(q.query, "limit")
      case None => r.0.limit == q.limit
      case Some(i) =>
        var v := q.query[i].1;
        |v| == 1 && IsDecimal(v[0]) && r.0.limit == DecimalValue(v[0]) && r.0.limit > 0
    ensures r.1.None? ==>
      match LastDispatch(q.query, "sort")
      case None => r.0.sorts == q.sorts
      case Some(i) =>
        var v := q.query[i].1;
        |r.0.sorts| == |v| && forall k :: 0 <= k < |v| ==> FormatSort(r.0.sorts[k]) == v[k]
  {
    ParseEntriesOutcome(q, q.query, PackageHandlers(parseOffset));
    ParseEntriesAssignsOffset(q, q.query, PackageHandlers(parseOffset));
    ParseEntriesAssignsLimit(q, q.query, PackageHandlers(parseOffset));
    ParseEntriesAssignsSorts(q, q.query, PackageHandlers(parseOffset));
    ParseEntries(q, q.query, PackageHandlers(parseOffset))
  }

  /** The free function `Parse(q, v)`: a fresh query given the values and the registry, then
      parsed. The returned query keeps both inputs, and on success its filters are exactly
      those the entries build; each of offset, limit and sorts keeps its zero value unless
      some key dispatches to it. */
  function ParseValues(values: UrlValues, vs: Registry, parseOffset: Handler<int>): (r: (Query, Option<Err>))
    ensures r.0.query == values && r.0.validations == vs
    ensures r.1.None? <==> AllEntriesOk(vs, values, PackageHandlers(parseOffset))
    ensures r.1.None? ==> r.0.filters == Gathered(vs, values, NewFilter) && |r.0.filters| == TotalFilterCount(values)
    ensures (forall i :: 0 <= i < |values| ==> ToLower(values[i].0) != "offset") ==> r.0.offset == 0
    ensures (forall i :: 0 <= i < |values| ==> ToLower(values[i].0) != "limit") ==> r.0.limit == 0
    ensures (forall i :: 0 <= i < |values| ==> ToLower(values[i].0) != "sort") ==> r.0.sorts == []
  {
    var q := SetValidations(SetUrlQuery(New(), values), vs);
    ParseEntriesOutcome(q, values, PackageHandlers(parseOffset));
    ParseEntriesFrame(q, values, PackageHandlers(parseOffset));
    Parse(q, parseOffset)
  }
}
