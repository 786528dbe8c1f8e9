/** `extract_hugo_params`: the identifiers a template dereferences under the
    `Site` and `Params` scope roots. */
module Extractor {
  import opened Scanning

  /** The extractor's result: the `Site` set and the `Params` set. */
  datatype ParamSets = ParamSets(site: set<string>, params: set<string>)

  const NoParams := ParamSets({}, {})

  function Union(a: ParamSets, b: ParamSets): ParamSets {
    ParamSets(a.site + b.site, a.params + b.params)
  }

  /** The scan pattern chosen by the file type; None stands for the
      UnboundLocalError raised when no branch assigns `pattern`. */
  function PatternFor(w: char -> bool, fileType: string): (r: Option<Pattern>)
    ensures r.Some? <==> fileType == "html" || fileType == "json" || fileType == "xml"
    ensures r.Some? ==> (r.value.HtmlExpr? <==> fileType == "html")
  {
    if fileType == "html" then Some(HtmlExpr(w))
    else if fileType == "json" then Some(JsonKey)
    else if fileType == "xml" then Some(XmlTag)
    else None
  }

  /** The first test: after `Site`, and not itself `Params`. */
  predicate IsSiteParam(parts: seq<string>, i: int)
    requires 0 <= i < |parts|
  {
    0 < i && parts[i - 1] == "Site" && parts[i] != "Params"
  }

  /** The `elif`: after `Params`, when the first test failed. */
  predicate IsNormalParam(parts: seq<string>, i: int)
    requires 0 <= i < |parts|
  {
    !IsSiteParam(parts, i) && 0 < i && parts[i - 1] == "Params"
  }

  /** The classification of the segments of one match, position by position:
      the reference the loops are proved against. */
  function Classify(parts: seq<string>): ParamSets {
    ParamSets(
      set i | 0 <= i < |parts| && IsSiteParam(parts, i) :: parts[i],
      set i | 0 <= i < |parts| && IsNormalParam(parts, i) :: parts[i])
  }

  /** `Params` is never a site parameter, every classified name is one of
      the segments, and a single segment classifies nothing. */
  lemma ClassifyBounds(parts: seq<string>)
    ensures "Params" !in Classify(parts).site
    ensures forall x :: x in Classify(parts).site || x in Classify(parts).params ==> x in parts
    ensures |parts| < 2 ==> Classify(parts) == NoParams
  {
  }

  /** What position `i` adds: at most one identifier, to at most one set. */
  function Contribution(parts: seq<string>, i: int): ParamSets
    requires 0 <= i < |parts|
  {
    if IsSiteParam(parts, i) then ParamSets({parts[i]}, {})
    else if IsNormalParam(parts, i) then ParamSets({}, {parts[i]})
    else NoParams
  }

  /** The classification of the segments of one match. */
  function MatchParams(m: string): ParamSets {
    Classify(Segments(m))
  }

  /** The union of a sequence of results, one after the other. */
  function UnionAll(ps: seq<ParamSets>): ParamSets
    decreases |ps|
  {
    if ps == [] then NoParams
    else Union(UnionAll(ps[..|ps| - 1]), ps[|ps| - 1])
  }

  /** The classification of each match. */
  function MatchResults(ms: seq<string>): seq<ParamSets> {
    seq(|ms|, j requires 0 <= j < |ms| => MatchParams(ms[j]))
  }

  /** What `extract_hugo_params(content, file_type)` returns. */
  function Extraction(w: char -> bool, content: string, fileType: string): (r: Option<ParamSets>)
    ensures r.Some? <==> fileType == "html" || fileType == "json" || fileType == "xml"
  {
    match PatternFor(w, fileType)
    case None => None
    case Some(p) => Some(UnionAll(MatchResults(FindAll(p, content))))
  }

  /** The outer loop of the source: each match's segments are added to the
      two sets. */
  method ExtractHugoParams(w: char -> bool, content: string, fileType: string)
    returns (r: Option<ParamSets>)
    ensures r == Extraction(w, content, fileType)
  {
    var pattern := PatternFor(w, fileType);
    if pattern.None? {
      return None;
    }
    var matches := FindAll(pattern.value, content);
    ghost var results := MatchResults(matches);
    var siteParams: set<string> := {};
    var normalParams: set<string> := {};
    for j := 0 to |matches|
      invariant ParamSets(siteParams, normalParams) == UnionAll(results[..j])
    {
      var parts := Segments(matches[j]);
      siteParams, normalParams := AddClassified(parts, siteParams, normalParams);
      UnionAllSnoc(results, j);
    }
    assert results[..|matches|] == results;
    r := Some(ParamSets(siteParams, normalParams));
  }

  /** The inner loop of the source: a segment after `Site` (other than
      `Params`) goes to the first set, one after `Params` to the second. */
  method AddClassified(parts: seq<string>, site: set<string>, normal: set<string>)
    returns (siteParams: set<string>, normalParams: set<string>)
    ensures ParamSets(siteParams, normalParams) == Union(ParamSets(site, normal), Classify(parts))
  {
    siteParams, normalParams := site, normal;
    for i := 0 to |parts|
      invariant ParamSets(siteParams, normalParams) == Union(ParamSets(site, normal), Classify(parts[..i]))
    {
      ghost var before := ParamSets(siteParams, normalParams);
      if i > 0 && parts[i - 1] == "Site" && parts[i] != "Params" {
        siteParams := siteParams + {parts[i]};
      } else if i > 0 && parts[i - 1] == "Params" {
        normalParams := normalParams + {parts[i]};
      }
      ClassifyStep(parts, i, ParamSets(site, normal), before, ParamSets(siteParams, normalParams));
    }
    assert parts[..|parts|] == parts;
  }

  lemma UnionAllSnoc(ps: seq<ParamSets>, j: nat)
    requires j < |ps|
    ensures UnionAll(ps[..j + 1]) == Union(UnionAll(ps[..j]), ps[j])
  {
    assert ps[..j + 1][..j] == ps[..j];
  }

  /** Classifying one more position adds exactly that position's
      contribution: the earlier positions keep their neighbours. */
  lemma ClassifyStep(parts: seq<string>, i: nat, done: ParamSets, before: ParamSets, after: ParamSets)
    requires i < |parts|
    requires before == Union(done, Classify(parts[..i]))
    requires after == Union(before, Contribution(parts, i))
    ensures after == Union(done, Classify(parts[..i + 1]))
  {
    ClassifyPrefix(parts, i);
  }

  lemma ClassifyPrefix(parts: seq<string>, i: nat)
    requires i < |parts|
    ensures Classify(parts[..i + 1]) == Union(Classify(parts[..i]), Contribution(parts, i))
  {
    var before, after := parts[..i], parts[..i + 1];
    assert forall k :: 0 <= k < i ==>
      IsSiteParam(after, k) == IsSiteParam(before, k) == IsSiteParam(parts, k) &&
      IsNormalParam(after, k) == IsNormalParam(before, k) == IsNormalParam(parts, k);
    assert IsSiteParam(after, i) == IsSiteParam(parts, i);
    assert IsNormalParam(after, i) == IsNormalParam(parts, i);
  }

  /** The left-to-right union is the union over all its members. */
  lemma {:induction false} UnionAllMember(ps: seq<ParamSets>, x: string)
    ensures x in UnionAll(ps).site <==> exists j :: 0 <= j < |ps| && x in ps[j].site
    ensures x in UnionAll(ps).params <==> exists j :: 0 <= j < |ps| && x in ps[j].params
    decreases |ps|
  {
    if ps != [] {
      var init := ps[..|ps| - 1];
      UnionAllMember(init, x);
      assert forall j :: 0 <= j < |init| ==> init[j] == ps[j];
    }
  }

  /** A complete expression in front contributes its own classification. */
  lemma {:induction false} UnionAllCons(p: ParamSets, ps: seq<ParamSets>)
    ensures UnionAll([p] + ps) == Union(p, UnionAll(ps))
    decreases |ps|
  {
    if ps != [] {
      var init := ps[..|ps| - 1];
      UnionAllCons(p, init);
      assert ([p] + ps)[..|ps|] == [p] + init;
    }
  }

  /** Every reported identifier is a non-empty `[a-zA-Z0-9_]+` token that the
      segment pattern found, right after a dot, inside one match. */
  lemma ExtractedAreSegments(w: char -> bool, content: string, fileType: string, x: string)
    requires Extraction(w, content, fileType).Some?
    requires x in Extraction(w, content, fileType).value.site ||
             x in Extraction(w, content, fileType).value.params
    ensures IsIdentifier(x)
    ensures exists m :: m in FindAll(PatternFor(w, fileType).value, content) && x in Segments(m)
  {
    var ms := FindAll(PatternFor(w, fileType).value, content);
    var rs := MatchResults(ms);
    UnionAllMember(rs, x);
    var j :| 0 <= j < |rs| && (x in rs[j].site || x in rs[j].params);
    ClassifyBounds(Segments(ms[j]));
    assert x in Segments(ms[j]) && ms[j] in ms;
    SegmentIsIdentifier(ms[j], x);
  }

  /** JSON keys and XML tag names contain no dot, so these file types never
      report anything. */
  lemma NonHtmlReportsNothing(w: char -> bool, content: string, fileType: string)
    requires fileType == "json" || fileType == "xml"
    ensures Extraction(w, content, fileType) == Some(NoParams)
  {
    var ms := FindAll(PatternFor(w, fileType).value, content);
    var rs := MatchResults(ms);
    forall j | 0 <= j < |rs|
      ensures rs[j] == NoParams
    {
      assert ms[j] in ms;
      FindAllTokens(PatternFor(w, fileType).value, content, ms[j]);
      DotlessHasNoSegments(ms[j]);
    }
    UnionAllOfNothing(rs);
  }

  lemma {:induction false} UnionAllOfNothing(ps: seq<ParamSets>)
    requires forall j :: 0 <= j < |ps| ==> ps[j] == NoParams
    ensures UnionAll(ps) == NoParams
    decreases |ps|
  {
    if ps != [] {
      UnionAllOfNothing(ps[..|ps| - 1]);
    }
  }

  /** Wherever an expression `{{x}}` stands in an html text, the
      classification of its segments is part of the result. */
  lemma ContainedExpression(w: char -> bool, before: string, x: string, after: string)
    requires ModelsWordClass(w)
    requires 0 < |x| && forall c :: c in x ==> InExprClass(w, c)
    ensures var r := Extraction(w, before + "{{" + x + "}}" + after, "html").value;
      MatchParams(x).site <= r.site && MatchParams(x).params <= r.params
  {
    var content := before + "{{" + x + "}}" + after;
    ExpressionInside(w, before, x, after);
    var ms := FindAll(HtmlExpr(w), content);
    var rs := MatchResults(ms);
    var j :| 0 <= j < |ms| && ms[j] == x;
    assert rs[j] == MatchParams(x);
    forall y | y in MatchParams(x).site || y in MatchParams(x).params
      ensures y in MatchParams(x).site ==> y in UnionAll(rs).site
      ensures y in MatchParams(x).params ==> y in UnionAll(rs).params
    {
      UnionAllMember(rs, y);
    }
  }

  /** The reference `{{ .a.b… }}`, with any whitespace inside the braces:
      its path's classification is reported. */
  lemma ContainedReference(w: char -> bool, before: string, ws1: string, path: seq<string>, ws2: string, after: string)
    requires ModelsWordClass(w) && Blank(ws1) && Blank(ws2)
    requires forall k :: 0 <= k < |path| ==> IsIdentifier(path[k])
    ensures var r := Extraction(w, before + "{{" + Spaced(ws1, path, ws2) + "}}" + after, "html").value;
      Classify(path).site <= r.site && Classify(path).params <= r.params
  {
    if path == [] {
      ClassifyBounds(path);
    } else {
      SpacedSegments(ws1, path, ws2);
      SpacedInClass(w, ws1, path, ws2);
      ContainedExpression(w, before, Spaced(ws1, path, ws2), after);
    }
  }

  /** A template that is one reference reports exactly its path's
      classification, whatever whitespace surrounds the path. */
  lemma SingleReference(w: char -> bool, ws1: string, path: seq<string>, ws2: string)
    requires ModelsWordClass(w) && Blank(ws1) && Blank(ws2) && path != []
    requires forall k :: 0 <= k < |path| ==> IsIdentifier(path[k])
    ensures Extraction(w, "{{" + Spaced(ws1, path, ws2) + "}}", "html") == Some(Classify(path))
  {
    SpacedSegments(ws1, path, ws2);
    SpacedInClass(w, ws1, path, ws2);
    SingleExpression(w, Spaced(ws1, path, ws2));
  }

  /** `{{ .Site.x }}` reports `x` as a site parameter, unless `x` is `Params`. */
  lemma SiteReference(w: char -> bool, before: string, ws1: string, x: string, ws2: string, after: string)
    requires ModelsWordClass(w) && Blank(ws1) && Blank(ws2) && IsIdentifier(x) && x != "Params"
    ensures x in Extraction(w, before + "{{" + Spaced(ws1, ["Site", x], ws2) + "}}" + after, "html").value.site
  {
    assert IsSiteParam(["Site", x], 1);
    ContainedReference(w, before, ws1, ["Site", x], ws2, after);
  }

  /** `{{ .Params.x }}` reports `x` as a page parameter. */
  lemma ParamsReference(w: char -> bool, before: string, ws1: string, x: string, ws2: string, after: string)
    requires ModelsWordClass(w) && Blank(ws1) && Blank(ws2) && IsIdentifier(x)
    ensures x in Extraction(w, before + "{{" + Spaced(ws1, ["Params", x], ws2) + "}}" + after, "html").value.params
  {
    assert IsNormalParam(["Params", x], 1);
    ContainedReference(w, before, ws1, ["Params", x], ws2, after);
  }

  /** `{{ .Site.Params.x }}` reports `x` as a page parameter. */
  lemma SiteParamsReference(w: char -> bool, before: string, ws1: string, x: string, ws2: string, after: string)
    requires ModelsWordClass(w) && Blank(ws1) && Blank(ws2) && IsIdentifier(x)
    ensures x in Extraction(w, before + "{{" + Spaced(ws1, ["Site", "Params", x], ws2) + "}}" + after, "html").value.params
  {
    SiteParamsClassify(x);
    ContainedReference(w, before, ws1, ["Site", "Params", x], ws2, after);
  }

  /** The path `Site, Params, x` classifies exactly `x`, as a page
      parameter: the `Site` test refuses `Params`, and the position after
      `Params` is a normal parameter, whatever `x` is. */
  lemma SiteParamsClassify(x: string)
    ensures Classify(["Site", "Params", x]) == ParamSets({}, {x})
  {
    var parts := ["Site", "Params", x];
    assert IsNormalParam(parts, 2);
    assert !IsSiteParam(parts, 1) && !IsNormalParam(parts, 1);
  }

  /** `Params` is never reported as a site parameter, for any text and
      file type. */
  lemma ParamsNeverSite(w: char -> bool, content: string, fileType: string)
    requires Extraction(w, content, fileType).Some?
    ensures "Params" !in Extraction(w, content, fileType).value.site
  {
    var ms := FindAll(PatternFor(w, fileType).value, content);
    var rs := MatchResults(ms);
    forall j | 0 <= j < |rs|
      ensures "Params" !in rs[j].site
    {
      ClassifyBounds(Segments(ms[j]));
    }
    UnionAllMember(rs, "Params");
  }

  /** `ws1 .a.b… ws2`: a path written as a template expression, with
      whitespace around it. */
  function Spaced(ws1: string, path: seq<string>, ws2: string): string {
    ws1 + Dotted(path) + ws2
  }

  lemma SpacedSegments(ws1: string, path: seq<string>, ws2: string)
    requires Blank(ws1) && Blank(ws2)
    requires forall k :: 0 <= k < |path| ==> IsIdentifier(path[k])
    ensures Segments(Spaced(ws1, path, ws2)) == path
  {
    assert Spaced(ws1, path, ws2) == ws1 + (Dotted(path) + ws2);
    BlankSegments(ws1, Dotted(path) + ws2);
    if ws2 != [] {
      assert ws2[0] in ws2;
    }
    SegmentsDotted(path, ws2);
    BlankSegments(ws2, []);
    assert ws2 + [] == ws2 && path + [] == path;
  }

  /** Every character of `ws1 .a.b… ws2` is in the html class. */
  lemma SpacedInClass(w: char -> bool, ws1: string, path: seq<string>, ws2: string)
    requires ModelsWordClass(w) && Blank(ws1) && Blank(ws2)
    requires forall k :: 0 <= k < |path| ==> IsIdentifier(path[k])
    ensures forall c :: c in Spaced(ws1, path, ws2) ==> InExprClass(w, c)
  {
    DottedChars(path);
  }

  /** An expression in front adds its own classification to what the
      rest of the html text reports. */
  lemma ExpressionThen(w: char -> bool, x: string, rest: string)
    requires ModelsWordClass(w)
    requires 0 < |x| && forall c :: c in x ==> InExprClass(w, c)
    ensures Extraction(w, "{{" + x + "}}" + rest, "html").value ==
      Union(MatchParams(x), Extraction(w, rest, "html").value)
  {
    ExpressionThenRest(w, x, rest);
    var ms := FindExpressions(w, rest);
    assert MatchResults([x] + ms) == [MatchParams(x)] + MatchResults(ms);
    UnionAllCons(MatchParams(x), MatchResults(ms));
  }

  /** A text that is one expression reports exactly its classification. */
  lemma SingleExpression(w: char -> bool, x: string)
    requires ModelsWordClass(w)
    requires 0 < |x| && forall c :: c in x ==> InExprClass(w, c)
    ensures Extraction(w, "{{" + x + "}}", "html") == Some(MatchParams(x))
  {
    ExpressionThen(w, x, "");
    assert "{{" + x + "}}" + "" == "{{" + x + "}}";
    var r := MatchParams(x);
    assert Union(r, NoParams) == r;
  }

  /** Text without `{` in front of the rest of an html text adds nothing. */
  lemma BracelessThen(w: char -> bool, pre: string, rest: string)
    requires '{' !in pre
    ensures Extraction(w, pre + rest, "html") == Extraction(w, rest, "html")
  {
    BracelessThenRest(w, pre, rest);
  }

  lemma {:induction false} DottedChars(path: seq<string>)
    requires forall k :: 0 <= k < |path| ==> IsIdentifier(path[k])
    ensures forall c :: c in Dotted(path) ==> c == '.' || IsAsciiWordChar(c)
  {
    if path != [] {
      DottedChars(path[1..]);
      assert Dotted(path) == "." + path[0] + Dotted(path[1..]);
    }
  }
}
