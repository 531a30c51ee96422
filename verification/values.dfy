/**
 * The dynamic values a filter carries and a validation function receives.
 * Go stores them in an `interface{}`; the model closes the union over the
 * shapes the parser produces or inspects.
 */
module Values {

  datatype Value =
    | Nil                        // the zero `interface{}` of a fresh Filter
    | Int(i: int)
    | Bool(b: bool)
    | Str(s: string)
    | IntSeq(ints: seq<int>)     // `[]int`
    | StrSeq(strs: seq<string>)  // `[]string`
}
