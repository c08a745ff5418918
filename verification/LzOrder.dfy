/** Comparing positions of the input by the bytes that follow them. */
module LzOrder {
  import opened Bytes

  /** Byte k of the input; bytes behind the end do not matter. */
  function At(d: seq<byte>, k: nat): byte { if k < |d| then d[k] else 0 }

  /** The n bytes at i do not come after the n bytes at j in lexicographic order. */
  predicate Le(d: seq<byte>, i: nat, j: nat, n: nat)
    decreases n
  {
    n == 0 || At(d, i) < At(d, j) || (At(d, i) == At(d, j) && Le(d, i + 1, j + 1, n - 1))
  }

  /** How many of the n bytes at i and at j agree before the first difference. */
  function Common(d: seq<byte>, i: nat, j: nat, n: nat): (r: nat)
    ensures r <= n
    decreases n
  {
    if n > 0 && At(d, i) == At(d, j) then 1 + Common(d, i + 1, j + 1, n - 1) else 0
  }

  predicate Same(d: seq<byte>, i: nat, j: nat, k: nat) { At(d, i + k) == At(d, j + k) }

  lemma {:induction false} CommonMeans(d: seq<byte>, i: nat, j: nat, n: nat)
    ensures forall k: nat | k < Common(d, i, j, n) :: Same(d, i, j, k)
    ensures Common(d, i, j, n) < n ==> !Same(d, i, j, Common(d, i, j, n))
    decreases n
  {
    if n > 0 && At(d, i) == At(d, j) {
      CommonMeans(d, i + 1, j + 1, n - 1);
      var r := Common(d, i + 1, j + 1, n - 1);
      forall k: nat | k < 1 + r
        ensures Same(d, i, j, k)
      {
        if k > 0 { assert Same(d, i + 1, j + 1, k - 1); }
      }
      assert r < n - 1 ==> !Same(d, i + 1, j + 1, r);
    }
  }

  lemma CommonIs(d: seq<byte>, i: nat, j: nat, n: nat, r: nat)
    requires r <= n && forall k: nat | k < r :: Same(d, i, j, k)
    requires r < n ==> !Same(d, i, j, r)
    ensures Common(d, i, j, n) == r
  {
    CommonMeans(d, i, j, n);
    var q: nat := Common(d, i, j, n);
    assert (q < r ==> Same(d, i, j, q)) && (r < q ==> Same(d, i, j, r));
  }

  lemma {:induction false} LeByCommon(d: seq<byte>, i: nat, j: nat, n: nat)
    ensures Le(d, i, j, n) <==> (var r := Common(d, i, j, n); r == n || At(d, i + r) < At(d, j + r))
    decreases n
  {
    if n > 0 && At(d, i) == At(d, j) { LeByCommon(d, i + 1, j + 1, n - 1); }
  }

  lemma {:induction false} LeShorter(d: seq<byte>, i: nat, j: nat, n: nat, m: nat)
    requires Le(d, i, j, n) && m <= n
    ensures Le(d, i, j, m)
    decreases n
  {
    if m > 0 && At(d, i) == At(d, j) { LeShorter(d, i + 1, j + 1, n - 1, m - 1); }
  }

  lemma {:induction false} LeTrans(d: seq<byte>, i: nat, j: nat, k: nat, n: nat)
    requires Le(d, i, j, n) && Le(d, j, k, n)
    ensures Le(d, i, k, n)
    decreases n
  {
    if n > 0 && At(d, i) == At(d, j) == At(d, k) { LeTrans(d, i + 1, j + 1, k + 1, n - 1); }
  }

  /** A position between two others shares with the last at least what the first does not exceed. */
  lemma {:induction false} CommonBetween(d: seq<byte>, i: nat, j: nat, k: nat, n: nat)
    requires Le(d, i, j, n) && Le(d, j, k, n)
    ensures Common(d, i, k, n) <= Common(d, j, k, n) && Common(d, i, k, n) <= Common(d, i, j, n)
    decreases n
  {
    if n > 0 && At(d, i) == At(d, k) {
      assert At(d, i) == At(d, j);
      CommonBetween(d, i + 1, j + 1, k + 1, n - 1);
    }
  }

  /** Equal in the first m bytes, by both orders. */
  lemma {:induction false} LeBoth(d: seq<byte>, i: nat, j: nat, n: nat, m: nat)
    requires Le(d, i, j, m) && Le(d, j, i, m) && m <= n
    ensures Common(d, i, j, n) >= m
    decreases m
  {
    if m > 0 { LeBoth(d, i + 1, j + 1, n - 1, m - 1); }
  }

  lemma {:induction false} CommonSym(d: seq<byte>, i: nat, j: nat, n: nat)
    ensures Common(d, i, j, n) == Common(d, j, i, n)
    decreases n
  {
    if n > 0 && At(d, i) == At(d, j) { CommonSym(d, i + 1, j + 1, n - 1); }
  }

  lemma {:induction false} LeCommon(d: seq<byte>, i: nat, j: nat, n: nat, m: nat)
    requires m <= Common(d, i, j, n)
    ensures Le(d, i, j, m) && Le(d, j, i, m)
    decreases m
  {
    if m > 0 { LeCommon(d, i + 1, j + 1, n - 1, m - 1); }
  }

  /** The comparison loop: from the first start bytes on, which are taken to agree. */
  function Scan(d: seq<byte>, i: nat, j: nat, start: nat, n: nat): (r: nat)
    requires start <= n
    ensures start <= r <= n
  {
    start + Common(d, i + start, j + start, n - start)
  }

  /** Starting at a length known to agree changes nothing. */
  lemma {:induction false} ScanSound(d: seq<byte>, i: nat, j: nat, start: nat, n: nat)
    requires start <= n && start <= Common(d, i, j, n)
    ensures Scan(d, i, j, start, n) == Common(d, i, j, n)
    decreases start
  {
    if start > 0 { ScanSound(d, i + 1, j + 1, start - 1, n - 1); }
  }
}
