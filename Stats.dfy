/** The summary cards and the province list shown above the table. Both are
    computed from every stored branch, not from the filtered ones. */
module Stats {
  import opened Text
  import opened Records
  import opened Query
  import opened Paging

  /** The number of connectable branches. */
  function CountConnectable(bs: seq<Branch>): (r: nat)
    ensures r <= |bs|
  {
    if |bs| == 0 then 0 else (if IsConnectable(bs[0]) then 1 else 0) + CountConnectable(bs[1..])
  }

  /** The online card counts the branches the "online" status filter shows
      when the other controls are empty. */
  lemma {:induction false} CountIsOnlineFilter(bs: seq<Branch>)
    ensures CountConnectable(bs) == |FilterBranches(bs, FilterControls("", "", "online"))|
  {
    if |bs| > 0 {
      CountIsOnlineFilter(bs[1..]);
    }
  }

  /** `Math.round(online / total * 100)`, or 0 without branches: the
      percentage rounded to the nearest integer, halves upwards. */
  function RoundedPercent(online: nat, total: nat): (r: nat)
    requires online <= total
    ensures total == 0 ==> r == 0
    ensures total > 0 ==> 2 * total * r <= 200 * online + total < 2 * total * (r + 1)
    ensures r <= 100
  {
    if total == 0 then 0
    else
      var r := (200 * online + total) / (2 * total);
      RoundedPercentBounds(online, total, r);
      r
  }

  lemma RoundedPercentBounds(online: nat, total: nat, r: nat)
    requires 0 < total && online <= total && r == (200 * online + total) / (2 * total)
    ensures 2 * total * r <= 200 * online + total < 2 * total * (r + 1)
    ensures r <= 100
  {
    var n := 200 * online + total;
    var d := 2 * total;
    DivBounds(n, d);
    assert d * (r + 1) == d * r + d;
    assert n < 101 * d;
    if r > 100 {
      MulMonotone(101, r, d);
    }
  }

  lemma DivBounds(n: nat, d: nat)
    requires d > 0
    ensures d * (n / d) <= n < d * (n / d) + d
  {
  }

  /** The four summary cards of `updateStats`. */
  datatype Summary = Summary(total: nat, online: nat, offline: nat, percentage: nat)

  /** `updateStats` over every stored branch. */
  function Summarize(bs: seq<Branch>): (s: Summary)
    ensures s.total == |bs| && s.online + s.offline == s.total
    ensures s.online == CountConnectable(bs) && s.percentage == RoundedPercent(s.online, s.total)
  {
    var online := CountConnectable(bs);
    Summary(|bs|, online, |bs| - online, RoundedPercent(online, |bs|))
  }

  /** All branches connectable shows 100%, none shows 0%. */
  lemma PercentExtremes(online: nat, total: nat)
    requires online <= total
    ensures online == 0 ==> RoundedPercent(online, total) == 0
    ensures 0 < total && online == total ==> RoundedPercent(online, total) == 100
  {
    if total > 0 {
      var r := RoundedPercent(online, total);
      var d := 2 * total;
      if online == 0 && r >= 1 {
        MulMonotone(1, r, d);
      }
      if online == total && r <= 99 {
        MulMonotone(r + 1, 100, d);
      }
    }
  }

  /** More connectable branches never show a smaller percentage. */
  lemma PercentMonotone(a: nat, b: nat, total: nat)
    requires a <= b <= total
    ensures RoundedPercent(a, total) <= RoundedPercent(b, total)
  {
    if total > 0 {
      var ra := RoundedPercent(a, total);
      var rb := RoundedPercent(b, total);
      if ra > rb {
        MulMonotone(rb + 1, ra, 2 * total);
      }
    }
  }

  predicate StrictlySorted(xs: seq<string>)
  {
    forall i, j :: 0 <= i < j < |xs| ==> StrLess(xs[i], xs[j])
  }

  /** Inserts `p` into a strictly sorted list, unless it is already there. */
  function InsertSorted(xs: seq<string>, p: string): (r: seq<string>)
    requires StrictlySorted(xs)
    ensures StrictlySorted(r)
    ensures forall q :: q in r <==> q in xs || q == p
    decreases |xs|
  {
    if |xs| == 0 then [p]
    else if xs[0] == p then xs
    else if StrLess(p, xs[0]) then
      InsertBeforeHead(xs, p);
      [p] + xs
    else
      StrLessTotal(p, xs[0]);
      var rest := InsertSorted(xs[1..], p);
      InsertAfterHead(xs, p, rest);
      [xs[0]] + rest
  }

  lemma InsertBeforeHead(xs: seq<string>, p: string)
    requires StrictlySorted(xs) && |xs| > 0 && StrLess(p, xs[0])
    ensures StrictlySorted([p] + xs)
  {
    forall j | 1 <= j < |xs| + 1
      ensures StrLess(([p] + xs)[0], ([p] + xs)[j])
    {
      if j > 1 {
        StrLessTransitive(p, xs[0], xs[j - 1]);
      }
    }
  }

  lemma InsertAfterHead(xs: seq<string>, p: string, rest: seq<string>)
    requires StrictlySorted(xs) && |xs| > 0 && StrLess(xs[0], p)
    requires StrictlySorted(rest) && forall q :: q in rest <==> q in xs[1..] || q == p
    ensures StrictlySorted([xs[0]] + rest)
  {
    forall j | 0 <= j < |rest|
      ensures StrLess(xs[0], rest[j])
    {
      assert rest[j] in rest;
      if rest[j] != p {
        var k :| 0 <= k < |xs[1..]| && xs[1..][k] == rest[j];
        assert xs[k + 1] == rest[j];
      }
    }
  }

  /** A province some branch of `bs` carries, non-empty. */
  ghost predicate ProvinceOf(bs: seq<Branch>, p: string)
  {
    exists i :: 0 <= i < |bs| && FieldOr(bs[i].fields, ProvinceKey) == p && p != ""
  }

  /** `[...new Set(provinces.filter(p => p))].sort()`: the distinct
      non-empty provinces in ascending order. */
  function ProvinceList(bs: seq<Branch>): (r: seq<string>)
    ensures StrictlySorted(r)
    ensures forall p :: p in r <==> ProvinceOf(bs, p)
  {
    if |bs| == 0 then []
    else
      var rest := ProvinceList(bs[..|bs| - 1]);
      var p := FieldOr(bs[|bs| - 1].fields, ProvinceKey);
      ProvinceListStep(bs);
      if p == "" then rest else InsertSorted(rest, p)
  }

  lemma ProvinceListStep(bs: seq<Branch>)
    requires |bs| > 0
    ensures forall p :: ProvinceOf(bs, p) <==>
      ProvinceOf(bs[..|bs| - 1], p) || (p == FieldOr(bs[|bs| - 1].fields, ProvinceKey) && p != "")
  {
    var init := bs[..|bs| - 1];
    forall p | ProvinceOf(bs, p)
      ensures ProvinceOf(init, p) || (p == FieldOr(bs[|bs| - 1].fields, ProvinceKey) && p != "")
    {
      var i :| 0 <= i < |bs| && FieldOr(bs[i].fields, ProvinceKey) == p && p != "";
      if i < |bs| - 1 {
        assert init[i] == bs[i];
      }
    }
    forall p | ProvinceOf(init, p)
      ensures ProvinceOf(bs, p)
    {
      var i :| 0 <= i < |init| && FieldOr(init[i].fields, ProvinceKey) == p && p != "";
      assert bs[i] == init[i];
    }
  }

  /** The province list after a rebuild: the previous choice is kept when
      it is still offered, and "all provinces" (the empty value) otherwise. */
  function ProvinceSelection(provinces: seq<string>, current: string): (r: string)
    ensures r == current || r == ""
    ensures r == "" || r in provinces
    ensures current in provinces ==> r == current
  {
    if current in provinces then current else ""
  }
}
