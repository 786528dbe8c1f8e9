/** The `organized_params` dictionary built by `save_to_yaml` before it is
    written out: every set turned into a list. */
module Output {
  import opened Extractor

  /** `{"Site": [...], "Params": [...]}` for one layout. */
  datatype LayoutLists = LayoutLists(site: seq<string>, params: seq<string>)

  /** `{"Site params": [...], "Normal params": [...], "Layout params": {...}}`. */
  datatype OrganizedParams = OrganizedParams(
    siteParams: seq<string>,
    normalParams: seq<string>,
    layoutParams: map<string, LayoutLists>)

  /** `list(s)`: every element of the set exactly once, in an order Python
      leaves unspecified. */
  ghost predicate Lists(l: seq<string>, s: set<string>) {
    (forall i, j :: 0 <= i < j < |l| ==> l[i] != l[j]) &&
    (forall x :: x in l <==> x in s)
  }

  /** The dictionary `organized_params` holds for these results, whatever
      order each `list(...)` happens to produce. */
  ghost predicate OrganizedFrom(r: OrganizedParams, categorized: ParamSets, layouts: map<string, ParamSets>) {
    Lists(r.siteParams, categorized.site) &&
    Lists(r.normalParams, categorized.params) &&
    r.layoutParams.Keys == layouts.Keys &&
    forall k :: k in layouts ==>
      Lists(r.layoutParams[k].site, layouts[k].site) &&
      Lists(r.layoutParams[k].params, layouts[k].params)
  }

  /** One order: the elements picked one by one. */
  ghost function ListOf(s: set<string>): (l: seq<string>)
    ensures Lists(l, s)
    decreases s
  {
    if s == {} then []
    else
      var x :| x in s;
      [x] + ListOf(s - {x})
  }

  /** `organized_params`, with one choice of the list orders. */
  ghost function Organize(categorized: ParamSets, layouts: map<string, ParamSets>): (r: OrganizedParams)
    ensures OrganizedFrom(r, categorized, layouts)
  {
    OrganizedParams(
      ListOf(categorized.site),
      ListOf(categorized.params),
      map k | k in layouts :: LayoutLists(ListOf(layouts[k].site), ListOf(layouts[k].params)))
  }

  function Elements(l: seq<string>): set<string> {
    set x | x in l
  }

  /** Reading the dictionary back as sets. */
  function ReadBack(r: OrganizedParams): (ParamSets, map<string, ParamSets>) {
    (ParamSets(Elements(r.siteParams), Elements(r.normalParams)),
     map k | k in r.layoutParams ::
       ParamSets(Elements(r.layoutParams[k].site), Elements(r.layoutParams[k].params)))
  }

  /** Nothing is lost or invented: the lists read back as the sets they were
      made from, under every layout. */
  lemma ReadBackRoundTrip(r: OrganizedParams, categorized: ParamSets, layouts: map<string, ParamSets>)
    requires OrganizedFrom(r, categorized, layouts)
    ensures ReadBack(r) == (categorized, layouts)
  {
    var (c, m) := ReadBack(r);
    assert c.site == categorized.site;
    assert c.params == categorized.params;
    forall k | k in layouts
      ensures m[k] == layouts[k]
    {
      assert m[k].site == layouts[k].site;
      assert m[k].params == layouts[k].params;
    }
    assert m.Keys == layouts.Keys;
    assert m == layouts;
  }

  /** Each list has exactly as many entries as its set: no duplicates. */
  lemma {:induction false} ListLength(l: seq<string>, s: set<string>)
    requires Lists(l, s)
    ensures |l| == |s|
    decreases |l|
  {
    if l != [] {
      var rest := l[1..];
      assert Lists(rest, s - {l[0]}) by {
        forall x
          ensures x in rest <==> x in s - {l[0]}
        {
          if x in rest {
            var i :| 0 <= i < |rest| && rest[i] == x;
            assert l[i + 1] == x && l[0] != l[i + 1];
          }
          if x in s && x != l[0] {
            assert x in l;
          }
        }
      }
      ListLength(rest, s - {l[0]});
    }
  }

  /** Any two orders of the same results list the same identifiers, with the
      same counts. */
  lemma OrdersAgree(r1: OrganizedParams, r2: OrganizedParams, categorized: ParamSets, layouts: map<string, ParamSets>)
    requires OrganizedFrom(r1, categorized, layouts) && OrganizedFrom(r2, categorized, layouts)
    ensures ReadBack(r1) == ReadBack(r2)
    ensures |r1.siteParams| == |r2.siteParams| && |r1.normalParams| == |r2.normalParams|
    ensures forall k :: k in layouts ==>
      |r1.layoutParams[k].site| == |r2.layoutParams[k].site| &&
      |r1.layoutParams[k].params| == |r2.layoutParams[k].params|
  {
    ReadBackRoundTrip(r1, categorized, layouts);
    ReadBackRoundTrip(r2, categorized, layouts);
    ListLength(r1.siteParams, categorized.site);
    ListLength(r2.siteParams, categorized.site);
    ListLength(r1.normalParams, categorized.params);
    ListLength(r2.normalParams, categorized.params);
    forall k | k in layouts
      ensures |r1.layoutParams[k].site| == |r2.layoutParams[k].site|
      ensures |r1.layoutParams[k].params| == |r2.layoutParams[k].params|
    {
      ListLength(r1.layoutParams[k].site, layouts[k].site);
      ListLength(r2.layoutParams[k].site, layouts[k].site);
      ListLength(r1.layoutParams[k].params, layouts[k].params);
      ListLength(r2.layoutParams[k].params, layouts[k].params);
    }
  }
}
