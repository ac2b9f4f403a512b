/**
 * The part of the platform URL API the proxy relies on: a URL whose address
 * is fixed when it is created and whose query is an ordered list of
 * name/value pairs, updated by `searchParams.set` and `searchParams.append`
 * as the URL Standard (WHATWG), section "URLSearchParams class", defines
 * them. Percent-encoding and serialisation are not modelled.
 */
module SearchParams {

  /** One name/value pair of a query string. */
  type Param = (string, string)

  /** searchParams.has(name). */
  predicate HasKey(ps: seq<Param>, k: string) {
    exists i :: 0 <= i < |ps| && ps[i].0 == k
  }

  /** searchParams.getAll(name): the values paired with `k`, in order. */
  function ValuesOf(ps: seq<Param>, k: string): (vs: seq<string>)
    ensures vs == [] <==> !HasKey(ps, k)
    ensures |vs| <= |ps|
  {
    if ps == [] then []
    else
      var rest := ValuesOf(ps[1..], k);
      assert HasKey(ps, k) <==> ps[0].0 == k || HasKey(ps[1..], k) by {
        if HasKey(ps, k) && ps[0].0 != k {
          var i :| 0 <= i < |ps| && ps[i].0 == k;
          assert ps[1..][i - 1].0 == k;
        }
        if HasKey(ps[1..], k) {
          var i :| 0 <= i < |ps[1..]| && ps[1..][i].0 == k;
          assert ps[i + 1].0 == k;
        }
      }
      if ps[0].0 == k then [ps[0].1] + rest else rest
  }

  /** The pairs whose name is not `k`, in their original order. */
  function Without(ps: seq<Param>, k: string): (r: seq<Param>)
    ensures !HasKey(r, k)
    ensures |r| <= |ps|
    ensures forall k' :: k' != k ==> ValuesOf(r, k') == ValuesOf(ps, k')
  {
    if ps == [] then []
    else if ps[0].0 == k then Without(ps[1..], k)
    else [ps[0]] + Without(ps[1..], k)
  }

  /** The first pair named `k` takes value `v`, later pairs named `k` are dropped. */
  function ReplaceFirst(ps: seq<Param>, k: string, v: string): (r: seq<Param>)
    requires HasKey(ps, k)
    ensures ValuesOf(r, k) == [v]
    ensures forall k' :: k' != k ==> ValuesOf(r, k') == ValuesOf(ps, k')
    ensures Without(r, k) == Without(ps, k)
  {
    if ps[0].0 == k then
      var rest := Without(ps[1..], k);
      WithoutTwice(ps[1..], k);
      assert ([(k, v)] + rest)[1..] == rest;
      [(k, v)] + rest
    else
      assert HasKey(ps[1..], k) by {
        var i :| 0 <= i < |ps| && ps[i].0 == k;
        assert ps[1..][i - 1].0 == k;
      }
      [ps[0]] + ReplaceFirst(ps[1..], k, v)
  }

  /**
   * searchParams.set(k, v): if a pair named `k` exists, the first one takes
   * value `v` and the others are removed; otherwise (k, v) is appended.
   * Afterwards `k` has exactly the value `v`, every other name keeps its
   * values, and the pairs of other names keep their order.
   */
  function SetParam(ps: seq<Param>, k: string, v: string): (r: seq<Param>)
    ensures ValuesOf(r, k) == [v]
    ensures forall k' :: k' != k ==> ValuesOf(r, k') == ValuesOf(ps, k')
    ensures Without(r, k) == Without(ps, k)
  {
    if HasKey(ps, k) then ReplaceFirst(ps, k, v)
    else
      AppendValues(ps, (k, v));
      WithoutAppend(ps, (k, v), k);
      ps + [(k, v)]
  }

  /** getAll over a concatenation is the concatenation of the two getAll's. */
  lemma {:induction false} ValuesOfConcat(a: seq<Param>, b: seq<Param>, k: string)
    ensures ValuesOf(a + b, k) == ValuesOf(a, k) + ValuesOf(b, k)
  {
    if a != [] {
      assert (a + b)[1..] == a[1..] + b;
      ValuesOfConcat(a[1..], b, k);
    } else {
      assert a + b == b;
    }
  }

  /** searchParams.append(k, v) adds `v` at the end of `k`'s values only. */
  lemma AppendValues(ps: seq<Param>, p: Param)
    ensures ValuesOf(ps + [p], p.0) == ValuesOf(ps, p.0) + [p.1]
    ensures forall k' :: k' != p.0 ==> ValuesOf(ps + [p], k') == ValuesOf(ps, k')
  {
    ValuesOfConcat(ps, [p], p.0);
    assert ValuesOf([p], p.0) == [p.1] by {
      assert [p][1..] == [];
    }
    forall k' | k' != p.0
      ensures ValuesOf(ps + [p], k') == ValuesOf(ps, k')
    {
      ValuesOfConcat(ps, [p], k');
      assert [p][1..] == [];
    }
  }

  lemma {:induction false} WithoutTwice(ps: seq<Param>, k: string)
    ensures Without(Without(ps, k), k) == Without(ps, k)
  {
    if ps != [] {
      WithoutTwice(ps[1..], k);
      if ps[0].0 != k {
        assert ([ps[0]] + Without(ps[1..], k))[1..] == Without(ps[1..], k);
      }
    }
  }

  lemma {:induction false} WithoutAppend(ps: seq<Param>, p: Param, k: string)
    ensures Without(ps + [p], k) == Without(ps, k) + (if p.0 == k then [] else [p])
  {
    if ps == [] {
      assert ps + [p] == [p];
      assert [p][1..] == [];
    } else {
      assert (ps + [p])[1..] == ps[1..] + [p];
      WithoutAppend(ps[1..], p, k);
    }
  }

  /** The URL object of a proxied request: a fixed address and its query pairs. */
  class Url {
    /** What `new URL(...)` was given: origin and path. */
    const href: string
    var params: seq<Param>

    constructor (href: string)
      ensures this.href == href && params == []
    {
      this.href := href;
      params := [];
    }

    /** url.searchParams.has(k) */
    predicate Has(k: string)
      reads this
    {
      HasKey(params, k)
    }

    /** url.searchParams.set(k, v) */
    method Set(k: string, v: string)
      modifies this
      ensures params == SetParam(old(params), k, v)
    {
      params := SetParam(params, k, v);
    }

    /** url.searchParams.append(k, v) */
    method Append(k: string, v: string)
      modifies this
      ensures params == old(params) + [(k, v)]
    {
      params := params + [(k, v)];
    }
  }
}
