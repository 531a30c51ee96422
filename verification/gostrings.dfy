/**
 * The parts of Go's `strings` package the parser relies on, restricted to
 * ASCII where Go is Unicode-aware (`TrimSpace`, `ToLower`).
 */
module GoStrings {

  // ---------------------------------------------------------------- spaces

  /** ASCII white space: tab, newline, vertical tab, form feed, carriage return, space. */
  predicate IsSpace(c: char) {
    c == ' ' || c == '\t' || c == '\n' || c == '\U{000B}' || c == '\U{000C}' || c == '\r'
  }

  predicate AllSpace(s: string) {
    forall i :: 0 <= i < |s| ==> IsSpace(s[i])
  }

  /** The number of white-space characters `s` starts with. */
  function LeadingSpaces(s: string): (n: nat)
    ensures n <= |s| && AllSpace(s[..n])
    ensures n < |s| ==> !IsSpace(s[n])
  {
    if |s| > 0 && IsSpace(s[0]) then
      var n := 1 + LeadingSpaces(s[1..]);
      assert s[..n] == [s[0]] + s[1..][..n - 1];
      n
    else 0
  }

  /** The number of white-space characters `s` ends with. */
  function TrailingSpaces(s: string): (n: nat)
    ensures n <= |s| && AllSpace(s[|s| - n..])
    ensures n < |s| ==> !IsSpace(s[|s| - n - 1])
  {
    if |s| > 0 && IsSpace(s[|s| - 1]) then
      var s' := s[..|s| - 1];
      var n := 1 + TrailingSpaces(s');
      assert s[|s| - n..] == s'[|s'| - (n - 1)..] + [s[|s| - 1]];
      n
    else 0
  }

  /** `strings.TrimSpace`: the leading white space is cut, then the trailing white space of
      what is left. */
  function TrimSpace(s: string): string {
    var rest := s[LeadingSpaces(s)..];
    rest[..|rest| - TrailingSpaces(rest)]
  }

  /** Where the trimmed string sits in the input: between a white-space prefix and a
      white-space suffix, with no white space at either of its own ends. */
  lemma TrimSpaceBounds(s: string) returns (i: nat, j: nat)
    ensures i <= j <= |s| && TrimSpace(s) == s[i..j]
    ensures AllSpace(s[..i]) && AllSpace(s[j..])
    ensures i < j ==> !IsSpace(s[i]) && !IsSpace(s[j - 1])
  {
    i := LeadingSpaces(s);
    var rest := s[i..];
    var n := TrailingSpaces(rest);
    j := i + |rest| - n;
    assert rest[..|rest| - n] == s[i..j];
    assert rest[|rest| - n..] == s[j..];
    if i < j {
      assert s[i] == rest[0];
      assert s[j - 1] == rest[|rest| - n - 1];
    }
  }

  /** The trimmed string is a slice of the input with only white space cut off either end,
      and it neither starts nor ends with white space. */
  lemma TrimSpaceShape(s: string)
    ensures var r := TrimSpace(s);
      exists i :: 0 <= i <= |s| - |r| && r == s[i..i + |r|] && AllSpace(s[..i]) && AllSpace(s[i + |r|..])
    ensures var r := TrimSpace(s); r == [] || (!IsSpace(r[0]) && !IsSpace(r[|r| - 1]))
  {
    var i, j := TrimSpaceBounds(s);
    var r := TrimSpace(s);
    assert i + |r| == j;
    if r != [] {
      assert r[0] == s[i] && r[|r| - 1] == s[j - 1];
    }
  }

  /** A string trims to empty exactly when it is all white space. */
  lemma TrimSpaceEmptyIffBlank(s: string)
    ensures TrimSpace(s) == [] <==> AllSpace(s)
  {
    var i, j := TrimSpaceBounds(s);
    if i == j {
      forall k | 0 <= k < |s|
        ensures IsSpace(s[k])
      {
        if k < i {
          assert s[k] == s[..i][k];
        } else {
          assert s[k] == s[j..][k - j];
        }
      }
    } else {
      assert s[i] == s[i..j][0];
    }
  }

  /** Trimming twice is trimming once. */
  lemma TrimSpaceIdempotent(s: string)
    ensures TrimSpace(TrimSpace(s)) == TrimSpace(s)
  {
    var i, j := TrimSpaceBounds(s);
    var r := TrimSpace(s);
    if r != [] {
      assert r[0] == s[i] && r[|r| - 1] == s[j - 1];
      assert LeadingSpaces(r) == 0;
      assert r[0..] == r;
      assert TrailingSpaces(r) == 0;
    }
  }

  // ---------------------------------------------------------------- case

  function LowerChar(c: char): char {
    if 'A' <= c <= 'Z' then (c as int + 32) as char else c
  }

  /** `strings.ToLower` on ASCII letters. */
  function ToLower(s: string): (r: string)
    ensures |r| == |s|
    ensures forall i :: 0 <= i < |s| ==> r[i] == LowerChar(s[i])
  {
    if |s| == 0 then [] else [LowerChar(s[0])] + ToLower(s[1..])
  }

  /** Lower-casing leaves no upper-case ASCII letter, so it is idempotent. */
  lemma ToLowerIdempotent(s: string)
    ensures forall i :: 0 <= i < |s| ==> !('A' <= ToLower(s)[i] <= 'Z')
    ensures ToLower(ToLower(s)) == ToLower(s)
  {
  }

  // ---------------------------------------------------------------- split

  function Count(s: string, c: char): nat {
    if |s| == 0 then 0 else (if s[0] == c then 1 else 0) + Count(s[1..], c)
  }

  /** The inverse of `Split`: the parts glued back together with the separator. */
  function Join(parts: seq<string>, c: char): string
    requires |parts| > 0
  {
    if |parts| == 1 then parts[0] else parts[0] + [c] + Join(parts[1..], c)
  }

  /** `strings.Split(s, sep)` for a one-character separator: one more part than there are
      separators, no part holds the separator, and joining the parts gives back `s`. */
  function Split(s: string, c: char): (parts: seq<string>)
    ensures |parts| == Count(s, c) + 1
    ensures forall k :: 0 <= k < |parts| ==> c !in parts[k]
    ensures Join(parts, c) == s
  {
    if |s| == 0 then [""]
    else
      var rest := Split(s[1..], c);
      if s[0] == c then [""] + rest
      else
        var parts := [[s[0]] + rest[0]] + rest[1..];
        assert parts[1..] == rest[1..];
        parts
  }

  lemma JoinCons(p: string, parts: seq<string>, c: char)
    requires |parts| > 0
    ensures Join([p] + parts, c) == p + [c] + Join(parts, c)
  {
    assert ([p] + parts)[1..] == parts;
  }

  /** Splitting undoes joining: the parts of a string are determined by it. */
  lemma {:induction false} SplitJoin(parts: seq<string>, c: char)
    requires |parts| > 0
    requires forall k :: 0 <= k < |parts| ==> c !in parts[k]
    ensures Split(Join(parts, c), c) == parts
    decreases |Join(parts, c)|, |parts[0]|
  {
    var s := Join(parts, c);
    if |parts| == 1 {
      SplitNoSeparator(parts[0], c);
    } else if |parts[0]| == 0 {
      assert s == [c] + Join(parts[1..], c);
      assert s[1..] == Join(parts[1..], c);
      SplitJoin(parts[1..], c);
      assert parts == [""] + parts[1..];
    } else {
      var p := parts[0];
      var shorter := [p[1..]] + parts[1..];
      JoinCons(p[1..], parts[1..], c);
      assert s == [p[0]] + Join(shorter, c);
      assert s[1..] == Join(shorter, c);
      SplitJoin(shorter, c);
      assert p == [p[0]] + p[1..];
      assert parts == [[p[0]] + shorter[0]] + shorter[1..];
    }
  }

  lemma {:induction false} SplitNoSeparator(s: string, c: char)
    requires c !in s
    ensures Split(s, c) == [s]
  {
    if |s| > 0 {
      assert c !in s[1..];
      SplitNoSeparator(s[1..], c);
      assert [s[0]] + s[1..] == s;
    }
  }

  /** Text before a first separator becomes the first part; the rest is split on its own. */
  lemma {:induction false} SplitAtFirst(x: string, c: char, y: string)
    requires c !in x
    ensures Split(x + [c] + y, c) == [x] + Split(y, c)
  {
    if |x| > 0 {
      assert (x + [c] + y)[1..] == x[1..] + [c] + y;
      assert c !in x[1..];
      SplitAtFirst(x[1..], c, y);
      assert [x[0]] + x[1..] == x;
    } else {
      assert (x + [c] + y)[1..] == y;
    }
  }

  /** The first part of `x + rest` is `x` when `x` has no separator and `rest` is empty or
      starts with one. */
  lemma SplitHead(x: string, c: char, rest: string)
    requires c !in x
    requires rest == [] || rest[0] == c
    ensures Split(x + rest, c)[0] == x
  {
    if rest == [] {
      assert x + rest == x;
      SplitNoSeparator(x, c);
    } else {
      assert x + rest == x + [c] + rest[1..];
      SplitAtFirst(x, c, rest[1..]);
    }
  }

  /** The first part is the text before the first separator. */
  lemma SplitFirst(s: string, c: char)
    ensures var p := Split(s, c)[0];
      |p| <= |s| && p == s[..|p|] && c !in p && (|p| < |s| <==> c in s) && (|p| < |s| ==> s[|p|] == c)
  {
    var parts := Split(s, c);
    if |parts| == 1 {
      assert s == parts[0];
    } else {
      JoinCons(parts[0], parts[1..], c);
      assert [parts[0]] + parts[1..] == parts;
      assert s == parts[0] + [c] + Join(parts[1..], c);
      assert s[|parts[0]|] == c;
    }
  }

  // ---------------------------------------------------------------- trim one character

  predicate AllChar(s: string, c: char) {
    forall i :: 0 <= i < |s| ==> s[i] == c
  }

  /** `strings.TrimRight(s, cutset)` for a one-character cutset: the longest prefix that
      does not end in `c`, followed in `s` by nothing but `c`. */
  function TrimRightChar(s: string, c: char): (r: string)
    ensures |r| <= |s| && r == s[..|r|]
    ensures AllChar(s[|r|..], c)
    ensures r == [] || r[|r| - 1] != c
  {
    if |s| > 0 && s[|s| - 1] == c then TrimRightChar(s[..|s| - 1], c) else s
  }

  /** Trimming a run of `c` off a string that does not itself end in `c` gives that string. */
  lemma {:induction false} TrimRightCharRun(x: string, c: char, run: string)
    requires x == [] || x[|x| - 1] != c
    requires AllChar(run, c)
    ensures TrimRightChar(x + run, c) == x
  {
    if |run| > 0 {
      assert (x + run)[..|x + run| - 1] == x + run[..|run| - 1];
      TrimRightCharRun(x, c, run[..|run| - 1]);
    } else {
      assert x + run == x;
    }
  }
}
