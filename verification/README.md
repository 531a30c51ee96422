# restqueryparser in Dafny

A model of the parsing-and-validation core of the Go package `restqueryparser`. The package
turns the values of a URL query (`url.Values`, a map from keys to lists of strings) into a
`Query` that holds an offset, a limit, a list of `Sort`s and a list of typed `Filter`s. It
checks them against a `Validations` registry along the way.

The model is written as pure functions over immutable datatypes. Each Go method that mutates
the `Query` becomes a function that returns the new field together with an optional error.

| file | module | models |
|---|---|---|
| `wrappers.dfy` | `Wrappers` | `Option` and `Result` |
| `values.dfy` | `Values` | the dynamic `interface{}` values a filter carries |
| `errors.dfy` | `Errors` | the sentinels, `*strconv.NumError`, and `errors.Wrap` kept structurally |
| `gostrings.dfy` | `GoStrings` | `strings.TrimSpace`, `ToLower`, `Split`, `TrimRight` (one-character cutset) |
| `strconv.dfy` | `Strconv` | `Atoi` with a 64-bit `int`, `ParseBool`, and their inverses `Itoa` and `FormatBool` |
| `validations.dfy` | `Validations` | the registry lookups `GetValidFunc` and `GetFieldType`, and the built-in validators |
| `filter.dfy` | `FilterBuilder` | the `field[op]` key grammar, value coercion, validation dispatch, `newFilter`, `parseFilter` |
| `limit.dfy` | `LimitParser` | `parseLimit` |
| `sort.dfy` | `SortParser` | `parseSort` |
| `query.dfy` | `QueryParser` | the `Query` record, its setters, `Query.Parse` and the free `Parse` |
| `order.dfy` | `ParseOrder` | what `Parse` computes independently of the map's iteration order |

Go maps, both `url.Values` and `Validations`, are iterated in an unspecified order. They are
modelled as sequences of pairs in some fixed order, and every property holds for every such
sequence. A registry lookup returns the first match in the sequence. One registry order
serves every lookup of a parse (see "## Left out").
When exactly one key matches, the result is the same whatever the order
(`GetValidFuncUnique`, `GetFieldTypeUnique`). `ParseOrder.ParseOrderIndependent` shows that
reordering the query's entries changes neither whether the parse succeeds nor the multiset of
filters it collects.

`Query.Parse` dispatches each key to a handler. The loop is written and proved for any record
of handlers (`QueryParser.Handlers`). `Parse` plugs in the package's own handlers:
`LimitHandler` and `SortHandler`, with `newFilter` as the filter builder.
`LimitHandlerAgrees` and `SortHandlerAgrees` prove that these handlers are exactly
`parseLimit` and `parseSort`, whatever the current field value. With `newFilter` as the
builder, each step of the filter loop is exactly `parseFilter` (`FilterStepIsParseFilter`).

## Model

| member | source | states |
|---|---|---|
| GoStrings.TrimSpaceBounds | filter.go:44 | the trimmed value lies between a white-space prefix and a white-space suffix of the input, and has no white space at either of its own ends |
| GoStrings.TrimSpaceShape | filter.go:44 | the trimmed value is a slice of the input with only white space cut off either end, and it neither starts nor ends with white space |
| GoStrings.TrimSpaceEmptyIffBlank | query.go:55-57 | a value trims to empty exactly when it is all white space, so these are exactly the values `Parse` skips |
| GoStrings.TrimSpaceIdempotent | filter.go:44 | trimming an already trimmed value changes nothing |
| GoStrings.ToLowerIdempotent | query.go:41 | the lower-cased key has no upper-case ASCII letter, and lower-casing it again changes nothing |
| GoStrings.Split | filter.go:128 | splitting on one character gives one more part than there are separators; no part holds the separator; joining the parts gives back the input |
| GoStrings.SplitJoin | validations.go:16 | splitting undoes joining, so the parts of a key are determined by the key |
| GoStrings.SplitFirst | filter.go:128-129 | the first part is the text before the first separator, and it is shorter than the input exactly when the separator occurs |
| GoStrings.TrimRightChar | filter.go:132 | trimming `]` on the right gives the longest prefix that does not end in `]`, followed in the input by nothing but `]` |
| GoStrings.TrimRightCharRun | filter.go:132 | trimming a run of `]` off a token that does not end in `]` gives back the token |
| Strconv.AccumulateDigitsFrom | filter.go:84-85 | the 64-bit digit loop of `strconv.ParseUint`, with its cutoff check before each multiplication and its overflow check after each addition, ends on the value of the digits exactly when the input is all digits and the value fits 64 unsigned bits |
| Strconv.Atoi | filter.go:84-85 | written as Go reads it (sign, digit loop, signed range check), it succeeds exactly on an optional sign followed by decimal digits whose value fits a 64-bit `int`, yielding that value; otherwise it fails with a `NumError` naming `Atoi` and the whole input |
| Strconv.AtoiItoa | filter.go:84-85 | every 64-bit integer written in decimal is read back as itself |
| Strconv.ParseBoolFormatBool | filter.go:86-87 | `true` and `false` are read back as themselves |
| Validations.Apply | validations.go:48-112 | every rejection by a built-in validator is the rejected value wrapped around `ErrNotInScope` |
| Validations.MinMaxBounds | validations.go:48-68 | `Min(n)` accepts exactly the ints at least `n` and `Max(n)` exactly the ints at most `n`; every rejection has root cause `ErrNotInScope` |
| Validations.MinMaxIsBoth | validations.go:69-78 | `MinMax(lo, hi)` accepts exactly what both `Min(lo)` and `Max(hi)` accept, so nothing when `lo > hi` |
| Validations.NotEmptyAccepts | validations.go:80-89 | `NotEmpty` accepts exactly the non-empty strings |
| Validations.InAccepts | validations.go:91-112 | `In(xs)` accepts exactly the members of `xs`, compared by type and value, so `In("1")` rejects the int 1; every rejection has root cause `ErrNotInScope` |
| Validations.KeyNamesBeforeColon | validations.go:15-22 | both branches of the key comparison amount to "the text before the first colon is the field name" |
| Validations.GetValidFunc | validations.go:13-26 | a function is returned only from a key that names the field; no such key gives nil; the first such key in iteration order is the one used |
| Validations.GetValidFuncUnique | validations.go:13-26 | when exactly one key names the field, its function is returned whatever the order |
| Validations.DeclaredType | validations.go:33-40 | a typed key declares one of `int`, `bool`, `string` |
| Validations.GetFieldType | validations.go:28-46 | the result is always `int`, `bool` or `string`; it is `string` when no typed key names the field; otherwise it is the type declared by the first typed key that names the field |
| Validations.DeclaredTypeOfSegments | validations.go:30-40 | for `name:segment[:...]`, `int`/`i` give "int", `bool`/`b` give "bool", and any other segment (`required`, empty, misspelt) gives "string" |
| Validations.GetFieldTypeIgnoresUntyped | validations.go:29-30 | keys without a colon never influence the declared type: dropping them changes nothing |
| Validations.GetFieldTypeUnique | validations.go:28-46 | when exactly one typed key names the field, its declared type is returned whatever the order |
| Validations.Lookup | query.go:44-48 | the handler's function is the one stored under exactly the lower-cased key, and nil when no key is exactly that |
| FilterBuilder.LabelInjective | filter.go:21-30 | the six method constants are distinct strings, so the stored method string determines the method |
| FilterBuilder.AllowedMethodsBijective | filter.go:32-41 | the operator table has six entries and maps its six tokens one-to-one onto the six methods |
| FilterBuilder.SetKeyAndOperator | filter.go:125-143 | a key without `[` is an equality on the whole key; a resolved field holds no `[` and is a prefix of the key; the only error is `ErrUnknownMethod`, and only for keys with `[` |
| FilterBuilder.KeyGrammar | filter.go:128-137 | for `name[token]...` with any run of `]` and a tail that is empty or opens another `[`, the field is `name`, and the method is the table's entry for `token`, or `ErrUnknownMethod` when the token is not in the table (so `id[gt` and `id[gt][x` are accepted) |
| FilterBuilder.KeyOfRoundTrip | filter.go:125-143 | the canonical key `name[token]` reads back as its field and method |
| FilterBuilder.Coerce | filter.go:83-90 | "int" succeeds exactly on base-10 integer syntax within range, giving `Int`; "bool" exactly on a `ParseBool` literal, giving `Bool`; any other type stores the string unchanged; every failure is a `NumError` on the raw value |
| FilterBuilder.CoerceRoundTrip | filter.go:83-90 | coercion reads back what `Itoa`, `FormatBool` or the identity wrote |
| FilterBuilder.SetValue | filter.go:79-97 | name and method are kept; the call fails exactly when coercion fails, and then the filter is unchanged; otherwise the value is the coerced value |
| FilterBuilder.CheckEach | filter.go:101-113 | the calls made are a prefix of the arguments; they cover all of them exactly when every call succeeds; otherwise they stop at the first rejected argument, whose error is returned |
| FilterBuilder.Validate | filter.go:99-123 | validation succeeds exactly when the function accepts every argument; a scalar is checked by exactly one call |
| FilterBuilder.NewFilter | filter.go:55-77 | a key error pre-empts coercion, and a coercion error pre-empts validation; for a resolved key the call succeeds exactly when the value coerces to the field's declared type and the field has no function or its function accepts the coerced value, and the filter built is then exactly `{field, method, coerced value}`; a rejection returns the function's error |
| FilterBuilder.NewFilterWellFormed | filter.go:55-77 | `name[op]=value`, with a value written for the field's declared type and accepted by its function, builds exactly the filter `{name, op, value}` |
| FilterBuilder.NonNumericIntFails | filter.go:63-67 | for a field declared int, a non-numeric value fails with `Atoi`'s error whatever the operator and the validation function |
| FilterBuilder.CustomErrorPassesThrough | filter.go:69-73 | an error built by a caller's validation function reaches the caller of `newFilter` unchanged |
| FilterBuilder.ParseFilter | filter.go:43-53 | the value is trimmed before the filter is built; on success exactly that filter is appended after the untouched earlier ones; on failure the filters are unchanged and the cause is wrapped with `key: <key>` |
| LimitParser.ParseLimit | limit.go:9-37 | succeeds exactly for one non-empty in-range decimal value above zero that the optional function accepts, and the limit becomes that value; a wrong arity or a non-integer is `ErrBadFormat`; a value at most zero is `ErrNotInScope` wrapped with the value, found before the function runs; the function's error passes through; on any error the limit is unchanged |
| LimitParser.ParseLimitItoa | limit.go:20-35 | when no function is registered, every positive integer written in decimal becomes the limit; and zero or a negative integer is rejected as out of scope whatever the function |
| SortParser.ParseSortEntry | sort.go:16-34 | an entry without exactly one `.` is an invalid field; an order other than `asc`/`desc` is an invalid order; the function sees only the field and its error passes through; a parsed sort formats back to the entry |
| SortParser.SortEntryRoundTrip | sort.go:16-34 | every sort whose field has no dot is read back from `field.asc` / `field.desc`, subject only to the function on the field |
| SortParser.ParseSorts | sort.go:15-36 | the entries succeed exactly when each one does, giving one sort per entry in order; otherwise the error is that of the first entry that fails |
| SortParser.ParseSort | sort.go:13-39 | on success the sorts are replaced, not extended, by one sort per value in order, with `Desc` exactly when the order is `desc`; no values give no sorts; on error the sorts are unchanged |
| QueryParser.LimitHandlerAgrees | query.go:46 | whatever the current limit, `parseLimit` assigns what the limit handler yields, or keeps the limit and reports the handler's error |
| QueryParser.SortHandlerAgrees | query.go:48 | whatever the current sorts, `parseSort` assigns what the sort handler yields, or keeps the sorts and reports the handler's error |
| QueryParser.NonBlank | query.go:54-57 | the values a filter key keeps are non-blank values of the key, and each non-blank value is kept exactly as often as it occurs |
| QueryParser.NonBlankConcat | query.go:54-57 | keeping non-blank values distributes over concatenation and keeps a single value exactly when it is not blank, so the kept values are the non-blank ones in their original order |
| QueryParser.Built | query.go:54-59 | exactly one filter is built for each non-blank value, in value order, from the trimmed value and the key as given |
| QueryParser.Collect | query.go:54-63 | the reference for one key: earlier filters stay a prefix; the key succeeds exactly when no outcome failed, appending every built filter; otherwise the error is the first failure wrapped with `key: <key>` |
| QueryParser.FilterValuesCollects | query.go:54-63 | the filter loop of `Parse` computes exactly the reference `Collect` of the outcomes of its non-blank values |
| QueryParser.Step | query.go:41-68 | the key's lower-cased form selects the handler; a successful offset, limit or sort handler's result is written into its own field, and no other field changes; the filter path touches neither limit, offset nor sorts and only appends; handler errors are wrapped with the key, filter errors are returned as they are |
| QueryParser.ParseEntriesOutcome | query.go:39-72 | the parse succeeds exactly when every entry does; filters are never reset; on success exactly the entries' filters are appended, in entry order, one per non-blank value of each non-reserved key |
| QueryParser.ParseEntriesFirstError | query.go:59-68 | on failure the reported error is that of the first entry that fails |
| QueryParser.ParseEntriesFrame | query.go:43-63 | a field that no key dispatches to keeps its value, and with only reserved keys the filters are unchanged |
| QueryParser.ParseEntriesAssignsOffset | query.go:43-44 | after a successful loop the offset is what the offset handler gave for the last key that lower-cases to `offset`, or unchanged when there is none |
| QueryParser.ParseEntriesAssignsLimit | query.go:45-46 | after a successful loop the limit is what the limit handler gave for the last key that lower-cases to `limit`, or unchanged when there is none |
| QueryParser.ParseEntriesAssignsSorts | query.go:47-48 | after a successful loop the sorts are what the sort handler gave for the last key that lower-cases to `sort`, or unchanged when there is none |
| QueryParser.Parse | query.go:39-72 | the query and registry are kept; the parse succeeds exactly when every entry succeeds with the package's handlers, and then the filters gain exactly the entries' filters; the last key that lower-cases to `limit` sets the limit to its single positive decimal value, the last `sort` key sets the sorts to one sort per value that formats back to it, the last `offset` key sets what the offset handler gives, and each field without such a key keeps its value |
| QueryParser.ParseValues | query.go:34-37 | a fresh query given the values and the registry and then parsed keeps both inputs; on success its filters are exactly the entries' filters; each of offset, limit and sorts stays zero when no key lower-cases to its name |
| ParseOrder.GatheredPermutation | query.go:40 | two iteration orders of the same entries collect the same filters, counted with multiplicity |
| ParseOrder.AllEntriesOkPermutation | query.go:40 | whether every entry succeeds does not depend on the iteration order |
| ParseOrder.ParseOrderIndependent | query.go:39-72 | whatever order the map is iterated in, the parse succeeds or fails alike, and on success it collects the same multiset of filters |

## Left out

- `parseOffset` is called at query.go:44 but its definition is not part of this model. It is a parameter of `Parse` that yields the new offset or an error. The model assumes it behaves like `parseLimit`: it assigns only `Offset`, and only on success. The offset clauses of `Step`, `ParseEntriesFrame`, `ParseEntriesAssignsOffset` and `Parse` rest on that assumption, not on code.
- URL decoding is left out. `SetUrlQuery` and `SetValidations` are plain field updates.
- Error messages are kept structurally: `errors.Wrap(err, text)` is `Wrapped(Text(text), err)` and `errors.Wrapf(err, "%v", v)` is `Wrapped(Shown(v), err)`. Stack traces and rendered text are not modelled.
- `strings.TrimSpace` and `strings.ToLower` are modelled on ASCII only. Unicode white space and case mapping are not.
- Strconv.Atoi: the inner `ErrSyntax` / `ErrRange` of the `NumError` is not distinguished. Go's `int` is taken to be 64 bits wide.
- Validation functions supplied by a caller are `Custom` closures. The model only sees the error they return, and panics are not modelled.
- `Value` is closed over the shapes the parser produces or inspects. `setValue` never produces a `[]int` or `[]string`, so the slice branches of `validate` are unreachable from `newFilter`. They are modelled all the same.
- Validations.GetValidFunc: one registry order serves every lookup of a parse. Go starts a fresh randomised iteration in each `GetFieldType` and `GetValidFunc` call (validations.go:14, validations.go:29). When several keys name one field, Go can take the type from one key and the function from another, for example type `int` from `id:int` with `Max(0)` from `id:string`. The model does not produce those mixed pairings. The lookups are order-independent whenever at most one key names the field (`GetValidFuncUnique`, `GetFieldTypeUnique`).
- A query entry sequence may repeat a key, which a Go map cannot. Every property holds without that assumption.
- ParseOrder.ParseOrderIndependent: says nothing about offset, limit and sorts, or about which error is reported. Two keys that differ only in case (`limit` and `LIMIT`) both dispatch to the same handler, and the later one wins. The first failing entry also depends on the order.
- main_test.go targets a different API (`NewQV`, SQL rendering, `in`/`like`, `:required`, sort sigils), so it is not modelled.

## Behaviour of the code worth knowing

The model follows the code in each case below.

- Coercion errors are the `*strconv.NumError` from `Atoi` or `ParseBool`, not `ErrBadFormat` (filter.go:84-93; `NonNumericIntFails`).
- The code has none of the following:
  - `IN` and `LIKE` operators;
  - per-element coercion with a delimiter;
  - `required` fields;
  - an ignore-unknown mode, with a `FilterNotFound` error;
  - SQL rendering.
- An undeclared field is accepted as a string filter.
- `ErrEmptyValue` is declared but never returned. Blank values are skipped by `Parse` (query.go:55-57).
- A sort entry is exactly `field.asc` or `field.desc`, one per value. There are no `+`/`-` sigils and no comma-separated lists (sort.go:16-24).
- `Parse` never resets `Filters` first. On an error, the fields assigned for earlier keys keep their new values.
- The limit value is not trimmed.
- The key grammar is lenient. `id[gt` (no closing bracket) and `id[gt][x` (a trailing group) are both accepted (`KeyGrammar`).
