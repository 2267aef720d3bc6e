/** `applyFilters`: the branches shown are those of the store that match
    the search box, the province list and the status list at once. */
module Query {
  import opened Text
  import opened Records

  /** The values of the three filter controls. */
  datatype FilterControls = FilterControls(search: string, province: string, status: string)

  /** No filtering at all: every control on its empty value. */
  const NoFilter := FilterControls("", "", "")

  /** Some value of `Object.values(branch)` contains the (already lower-cased)
      term once lower-cased: the id, written in decimal, or a field value.
      An empty term matches everything. */
  predicate MatchesSearch(b: Branch, term: string)
  {
    || term == ""
    || Contains(Lower(NatToString(b.id)), term)
    || exists k | k in b.fields :: Contains(Lower(b.fields[k]), term)
  }

  /** An empty province matches everything; otherwise the branch's province
      must be exactly that value (a branch without one never matches). */
  predicate MatchesProvince(b: Branch, province: string)
  {
    province == "" || (ProvinceKey in b.fields && b.fields[ProvinceKey] == province)
  }

  /** An empty status matches everything, "online" the connectable branches,
      "offline" every other branch (including those without CCTV); any other
      value matches nothing. */
  predicate MatchesStatus(b: Branch, status: string)
  {
    || status == ""
    || (status == "online" && IsConnectable(b))
    || (status == "offline" && !IsConnectable(b))
  }

  /** The predicate `applyFilters` keeps a branch by; the search text is
      lower-cased first, the other two controls are used as they are. */
  predicate Matches(b: Branch, c: FilterControls)
  {
    MatchesSearch(b, Lower(c.search)) && MatchesProvince(b, c.province) && MatchesStatus(b, c.status)
  }

  /** `allBranches.filter(...)`: the matching branches, in their order. */
  function FilterBranches(bs: seq<Branch>, c: FilterControls): (r: seq<Branch>)
    ensures |r| <= |bs|
    ensures forall b :: b in r <==> b in bs && Matches(b, c)
  {
    if |bs| == 0 then []
    else (if Matches(bs[0], c) then [bs[0]] else []) + FilterBranches(bs[1..], c)
  }

  /** Filtering is order preserving: it distributes over concatenation. */
  lemma {:induction false} FilterAppend(xs: seq<Branch>, ys: seq<Branch>, c: FilterControls)
    ensures FilterBranches(xs + ys, c) == FilterBranches(xs, c) + FilterBranches(ys, c)
  {
    if |xs| > 0 {
      assert (xs + ys)[1..] == xs[1..] + ys;
      FilterAppend(xs[1..], ys, c);
    } else {
      assert xs + ys == ys;
    }
  }

  /** A list that only holds matching branches is its own filtering. */
  lemma {:induction false} FilterKeepsMatching(bs: seq<Branch>, c: FilterControls)
    requires forall b :: b in bs ==> Matches(b, c)
    ensures FilterBranches(bs, c) == bs
  {
    if |bs| > 0 {
      assert bs[0] in bs;
      FilterKeepsMatching(bs[1..], c);
    }
  }

  /** Filtering twice with the same controls is filtering once. */
  lemma FilterIdempotent(bs: seq<Branch>, c: FilterControls)
    ensures FilterBranches(FilterBranches(bs, c), c) == FilterBranches(bs, c)
  {
    FilterKeepsMatching(FilterBranches(bs, c), c);
  }

  /** With every control empty, nothing is filtered out. */
  lemma NoFilterKeepsAll(bs: seq<Branch>)
    ensures FilterBranches(bs, NoFilter) == bs
  {
    assert Lower("") == "";
    FilterKeepsMatching(bs, NoFilter);
  }

  /** A status value other than "", "online" and "offline" empties the table. */
  lemma {:induction false} UnknownStatusMatchesNothing(bs: seq<Branch>, c: FilterControls)
    requires c.status != "" && c.status != "online" && c.status != "offline"
    ensures FilterBranches(bs, c) == []
  {
    if |bs| > 0 {
      UnknownStatusMatchesNothing(bs[1..], c);
    }
  }

  /** The search is case-insensitive: typing the term in capitals or not
      shows the same branches. */
  lemma {:induction false} SearchIgnoresCase(bs: seq<Branch>, c: FilterControls)
    ensures FilterBranches(bs, c.(search := Lower(c.search))) == FilterBranches(bs, c)
  {
    LowerIdempotent(c.search);
    if |bs| > 0 {
      SearchIgnoresCase(bs[1..], c);
    }
  }

  /** "online" and "offline" split whatever the other two controls leave,
      with nothing lost and nothing counted twice. */
  lemma {:induction false} StatusPartition(bs: seq<Branch>, search: string, province: string)
    ensures |FilterBranches(bs, FilterControls(search, province, "online"))|
          + |FilterBranches(bs, FilterControls(search, province, "offline"))|
         == |FilterBranches(bs, FilterControls(search, province, ""))|
  {
    if |bs| > 0 {
      StatusPartition(bs[1..], search, province);
    }
  }

  /** "offline" means "not connectable": a branch without CCTV, one with a
      non-canonical online value and one without any are all offline. */
  lemma OfflineMeansNotConnectable(b: Branch, search: string, province: string)
    requires !IsConnectable(b)
    requires MatchesSearch(b, Lower(search)) && MatchesProvince(b, province)
    ensures FilterBranches([b], FilterControls(search, province, "offline")) == [b]
    ensures FilterBranches([b], FilterControls(search, province, "online")) == []
  {
  }
}
