/**
 * `Query.Parse` ranges over a Go map, whose iteration order is unspecified.
 * This module shows what does not depend on that order: whether the parse
 * succeeds, and which filters it collects, counted with multiplicity.
 */
module ParseOrder {
  import opened Wrappers
  import opened Errors
  import opened FilterBuilder
  import opened QueryParser

  lemma {:induction false} GatheredConcat(vs: Validations.Registry, a: UrlValues, b: UrlValues, build: Builder)
    ensures Gathered(vs, a + b, build) == Gathered(vs, a, build) + Gathered(vs, b, build)
    decreases |a|
  {
    if |a| > 0 {
      assert (a + b)[0] == a[0];
      assert (a + b)[1..] == a[1..] + b;
      GatheredConcat(vs, a[1..], b, build);
      ConcatAssoc(EntryFilters(vs, a[0], build), Gathered(vs, a[1..], build), Gathered(vs, b, build));
    } else {
      assert a + b == b;
    }
  }

  /** Removing the same element from two orders of the same elements leaves two orders of
      the same elements. */
  lemma RemoveMatching<T>(xs: seq<T>, ys: seq<T>, k: nat)
    requires multiset(xs) == multiset(ys) && |xs| > 0
    requires k < |ys| && ys[k] == xs[0]
    ensures multiset(xs[1..]) == multiset(ys[..k] + ys[k + 1..])
  {
    assert xs == [xs[0]] + xs[1..];
    assert ys == ys[..k] + [ys[k]] + ys[k + 1..];
    assert multiset(xs[1..]) == multiset(xs) - multiset([xs[0]]);
    assert multiset(ys[..k] + ys[k + 1..]) == multiset(ys) - multiset([ys[k]]);
  }

  /** The filters of the entries around `x`, with `x` in between or left out. */
  lemma GatheredAround(vs: Validations.Registry, before: UrlValues, x: (string, seq<string>), after: UrlValues, build: Builder)
    ensures multiset(Gathered(vs, before + [x] + after, build))
         == multiset(EntryFilters(vs, x, build)) + multiset(Gathered(vs, before + after, build))
  {
    GatheredConcat(vs, before + [x], after, build);
    GatheredConcat(vs, before, [x], build);
    GatheredConcat(vs, before, after, build);
    GatheredCons(vs, [x], build);
    assert [x][1..] == [];
  }

  /** Two iteration orders of the same entries collect the same filters, up to order. */
  lemma {:induction false} GatheredPermutation(vs: Validations.Registry, es1: UrlValues, es2: UrlValues, build: Builder)
    requires multiset(es1) == multiset(es2)
    ensures multiset(Gathered(vs, es1, build)) == multiset(Gathered(vs, es2, build))
    decreases |es1|
  {
    if |es1| == 0 {
      assert |multiset(es2)| == 0;
    } else {
      var x := es1[0];
      assert x in multiset(es2);
      var k :| 0 <= k < |es2| && es2[k] == x;
      var before, after := es2[..k], es2[k + 1..];
      assert es2 == before + [x] + after;
      RemoveMatching(es1, es2, k);
      GatheredPermutation(vs, es1[1..], before + after, build);
      GatheredAround(vs, before, x, after, build);
      GatheredCons(vs, es1, build);
    }
  }

  /** Whether every entry succeeds does not depend on their order. */
  lemma AllEntriesOkPermutation(vs: Validations.Registry, es1: UrlValues, es2: UrlValues, h: Handlers)
    requires multiset(es1) == multiset(es2)
    ensures AllEntriesOk(vs, es1, h) <==> AllEntriesOk(vs, es2, h)
  {
    forall es, es' | multiset(es) == multiset(es') && AllEntriesOk(vs, es, h)
      ensures AllEntriesOk(vs, es', h)
    {
      forall i | 0 <= i < |es'|
        ensures EntryError(vs, es'[i], h).None?
      {
        assert es'[i] in multiset(es);
        var j :| 0 <= j < |es| && es[j] == es'[i];
      }
    }
  }

  /** Whatever order the map is iterated in, the parse succeeds or fails alike, and on success
      the same filters are collected, counted with multiplicity. */
  lemma ParseOrderIndependent(q: Query, es1: UrlValues, es2: UrlValues, h: Handlers)
    requires multiset(es1) == multiset(es2)
    ensures ParseEntries(q, es1, h).1.None? <==> ParseEntries(q, es2, h).1.None?
    ensures ParseEntries(q, es1, h).1.None? ==>
      multiset(ParseEntries(q, es1, h).0.filters) == multiset(ParseEntries(q, es2, h).0.filters)
  {
    ParseEntriesOutcome(q, es1, h);
    ParseEntriesOutcome(q, es2, h);
    AllEntriesOkPermutation(q.validations, es1, es2, h);
    GatheredPermutation(q.validations, es1, es2, h.build);
  }
}
