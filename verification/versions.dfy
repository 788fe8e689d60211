/** `version_compare` of qq_api (qq_api/qq_api/functions.py): versions are
    dotted integers, anything after the first `-` is dropped, and
    components are compared in order with a shorter prefix first. */
module Versions {
  import opened Basics

  /** `int(x)` for every component, or `None` on the first one that is not
      an integer (`ValueError`). */
  function ParseAll(parts: seq<string>): (r: Option<seq<int>>)
    ensures r.None? <==> exists i :: 0 <= i < |parts| && ParseInt(parts[i]).None?
    ensures r.Some? ==> |r.value| == |parts| && forall i :: 0 <= i < |parts| ==> Some(r.value[i]) == ParseInt(parts[i])
  {
    if |parts| == 0 then Some([])
    else match (ParseInt(parts[0]), ParseAll(parts[1..]))
      case (Some(n), Some(rest)) => Some([n] + rest)
      case (None, _) => None
      case (_, None) =>
        assert forall i :: 0 <= i < |parts| - 1 ==> parts[1..][i] == parts[i + 1];
        None
  }

  /** `split_version`: the part before the first `-`, split on `.`. */
  function SplitVersion(v: string): (r: Option<seq<int>>)
    ensures r.Some? ==> |r.value| >= 1
  {
    ParseAll(Split(Split(v, '-')[0], '.'))
  }

  /** `cmp(a, b)` */
  function Cmp(a: int, b: int): (r: int)
    ensures r == -1 <==> a < b
    ensures r == 1 <==> a > b
    ensures r == 0 <==> a == b
  {
    if a < b then -1 else if a > b then 1 else 0
  }

  /** `r` is the answer given at index `k`: the versions agree before it,
      and either differ there or one of them ends there. */
  predicate DecidedAt(a: seq<int>, b: seq<int>, k: int, r: int)
  {
    && 0 <= k <= |a| && k <= |b| && a[..k] == b[..k]
    && ((k < |a| && k < |b| && a[k] != b[k] && r == Cmp(a[k], b[k]))
        || ((k == |a| || k == |b|) && r == Cmp(|a|, |b|)))
  }

  /** The loop of `version_compare` over two parsed versions. */
  function CompareParts(a: seq<int>, b: seq<int>): (r: int)
    ensures r in {-1, 0, 1}
    ensures r == 0 <==> a == b
    ensures exists k :: DecidedAt(a, b, k, r)
  {
    if |a| == 0 || |b| == 0 then
      assert DecidedAt(a, b, 0, Cmp(|a|, |b|));
      Cmp(|a|, |b|)
    else if a[0] != b[0] then
      assert DecidedAt(a, b, 0, Cmp(a[0], b[0]));
      Cmp(a[0], b[0])
    else
      var r := CompareParts(a[1..], b[1..]);
      var k :| DecidedAt(a[1..], b[1..], k, r);
      assert a[..k + 1] == [a[0]] + a[1..][..k];
      assert b[..k + 1] == [b[0]] + b[1..][..k];
      assert DecidedAt(a, b, k + 1, r);
      assert r == 0 ==> a == [a[0]] + a[1..] == [b[0]] + b[1..] == b;
      r
  }

  /** Swapping the arguments flips the answer. */
  lemma {:induction false} CompareAntisymmetric(a: seq<int>, b: seq<int>)
    ensures CompareParts(a, b) == -CompareParts(b, a)
    decreases |a|
  {
    if |a| > 0 && |b| > 0 && a[0] == b[0] {
      CompareAntisymmetric(a[1..], b[1..]);
    }
  }

  /** The order is transitive. */
  lemma {:induction false} CompareTransitive(a: seq<int>, b: seq<int>, c: seq<int>)
    requires CompareParts(a, b) <= 0 && CompareParts(b, c) <= 0
    ensures CompareParts(a, c) <= 0
    decreases |a|
  {
    if |a| > 0 && |b| > 0 && |c| > 0 && a[0] == b[0] && b[0] == c[0] {
      CompareTransitive(a[1..], b[1..], c[1..]);
    }
  }

  /** A version is older than any version it is a proper prefix of. */
  lemma {:induction false} PrefixIsOlder(a: seq<int>, b: seq<int>)
    requires |b| > 0
    ensures CompareParts(a, a + b) == -1
    decreases |a|
  {
    if |a| > 0 {
      assert (a + b)[0] == a[0] && (a + b)[1..] == a[1..] + b;
      PrefixIsOlder(a[1..], b);
    }
  }

  /** `version_compare(v1, v2)`: `-1`, `0` or `1`, or `ValueError` when a
      component of either is not an integer. */
  function VersionCompare(v1: string, v2: string): (r: Result<int, string>)
    ensures r.Err? <==> SplitVersion(v1).None? || SplitVersion(v2).None?
    ensures r.Err? ==> r.error == "ValueError"
    ensures r.Ok? ==> r.value in {-1, 0, 1} && (r.value == 0 <==> SplitVersion(v1) == SplitVersion(v2))
  {
    match (SplitVersion(v1), SplitVersion(v2))
    case (Some(a), Some(b)) => Ok(CompareParts(a, b))
    case _ => Err("ValueError")
  }

  /** Swapping the versions flips the answer and keeps an error an error. */
  lemma VersionAntisymmetric(v1: string, v2: string)
    ensures VersionCompare(v1, v2).Ok? <==> VersionCompare(v2, v1).Ok?
    ensures VersionCompare(v1, v2).Ok? ==> VersionCompare(v1, v2).value == -VersionCompare(v2, v1).value
  {
    if VersionCompare(v1, v2).Ok? {
      CompareAntisymmetric(SplitVersion(v1).value, SplitVersion(v2).value);
    }
  }

  /** A pre-release tag after `-` is ignored: `1.0.0-beta` equals `1.0.0`. */
  lemma SuffixIgnored(v: string, tag: string)
    requires '-' !in v
    ensures SplitVersion(v + "-" + tag) == SplitVersion(v)
  {
    SplitNoSep(v, "-" + tag, '-');
    SplitNoSep(v, "", '-');
    assert v + "-" + tag == v + ("-" + tag);
    assert v + "" == v;
  }
}
