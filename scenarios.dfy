/** Worked templates: what the extractor reports for a few concrete theme
    files, derived from the general lemmas. */
module Scenarios {
  import opened Scanning
  import opened Extractor
  import opened Aggregator

  /** No text, no expression. */
  lemma EmptyHtml(w: char -> bool)
    ensures Extraction(w, "", "html") == Some(NoParams)
  {
  }

  /** The `Params` map read through the site object. */
  lemma SiteParamsFoo(w: char -> bool)
    requires ModelsWordClass(w)
    ensures Extraction(w, "{{ .Site.Params.Foo }}", "html") == Some(ParamSets({}, {"Foo"}))
  {
    var path := ["Site", "Params", "Foo"];
    SiteParamsText(path);
    SpacedSegments(" ", path, " ");
    SpacedInClass(w, " ", path, " ");
    SiteParamsClassify("Foo");
    SingleExpression(w, Spaced(" ", path, " "));
  }

  lemma SiteParamsText(path: seq<string>)
    requires path == ["Site", "Params", "Foo"]
    ensures "{{ .Site.Params.Foo }}" == "{{" + Spaced(" ", path, " ") + "}}"
  {
    assert path[1..] == ["Params", "Foo"];
    DottedPair("Params", "Foo");
  }

  /** Without whitespace inside the braces the reference is reported the
      same way. */
  lemma BareSiteTitle(w: char -> bool)
    requires ModelsWordClass(w)
    ensures Extraction(w, "{{.Site.Title}}", "html") == Some(ParamSets({"Title"}, {}))
  {
    var path := ["Site", "Title"];
    DottedPair("Site", "Title");
    assert "{{.Site.Title}}" == "{{" + Spaced("", path, "") + "}}";
    SingleReference(w, "", path, "");
    assert IsSiteParam(path, 1);
    assert Classify(path) == ParamSets({"Title"}, {});
  }

  /** Each expression is split on its own: `.Site` and `.Title` in two
      expressions are not a path. */
  lemma SeparateExpressions(w: char -> bool)
    requires ModelsWordClass(w)
    ensures Extraction(w, "{{ .Site }}{{ .Title }}", "html") == Some(NoParams)
  {
    SeparateText();
    SeparateParts(w);
    TwoExpressionsInMarkup(w, "", " .Site ", "", " .Title ", "");
    assert Union(NoParams, NoParams) == NoParams;
  }

  lemma SeparateParts(w: char -> bool)
    requires ModelsWordClass(w)
    ensures MatchParams(" .Site ") == NoParams && MatchParams(" .Title ") == NoParams
    ensures forall c :: c in " .Site " ==> InExprClass(w, c)
    ensures forall c :: c in " .Title " ==> InExprClass(w, c)
  {
    SingleSegment(w, "Site");
    SingleSegment(w, "Title");
    assert Spaced(" ", ["Site"], " ") == " .Site " && Spaced(" ", ["Title"], " ") == " .Title ";
  }

  lemma SeparateText()
    ensures "{{ .Site }}{{ .Title }}" == "" + ("{{" + " .Site " + "}}") + "" + ("{{" + " .Title " + "}}") + ""
  {
  }

  /** A one-segment expression classifies nothing. */
  lemma SingleSegment(w: char -> bool, x: string)
    requires ModelsWordClass(w) && IsIdentifier(x)
    ensures MatchParams(Spaced(" ", [x], " ")) == NoParams
    ensures forall c :: c in Spaced(" ", [x], " ") ==> InExprClass(w, c)
  {
    SpacedSegments(" ", [x], " ");
    ClassifyBounds([x]);
    SpacedInClass(w, " ", [x], " ");
  }

  /** A pipe is part of the expression class, so the segments on both sides
      of it form one path: `Title` is reported as a site parameter. */
  lemma PipeJoinsSegments(w: char -> bool)
    requires ModelsWordClass(w)
    ensures Extraction(w, "{{ .Site | .Title }}", "html") == Some(ParamSets({"Title"}, {}))
  {
    var x := " .Site | .Title ";
    assert "{{ .Site | .Title }}" == "{{" + x + "}}";
    PipeSegments();
    var parts := ["Site", "Title"];
    assert IsSiteParam(parts, 1);
    assert Classify(parts) == ParamSets({"Title"}, {});
    assert forall c :: c in x ==> c == ' ' || c == '.' || c == '|' || IsAsciiWordChar(c);
    SingleExpression(w, x);
  }

  lemma PipeSegments()
    ensures Segments(" .Site | .Title ") == ["Site", "Title"]
  {
    SiteBeforePipe();
    TitleAfterPipe();
  }

  lemma SiteBeforePipe()
    ensures Segments(" .Site | .Title ") == ["Site"] + Segments(" | .Title ")
  {
    assert " .Site | .Title " == [' '] + ".Site | .Title ";
    assert ".Site | .Title " == "." + "Site" + " | .Title ";
    SegmentsSkip(' ', ".Site | .Title ");
    SegmentsWord("Site", " | .Title ");
  }

  lemma TitleAfterPipe()
    ensures Segments(" | .Title ") == ["Title"]
  {
    assert " | .Title " == [' '] + "| .Title ";
    assert "| .Title " == ['|'] + " .Title ";
    assert " .Title " == [' '] + ".Title ";
    assert ".Title " == "." + "Title" + " ";
    assert " " == [' '] + "";
    SegmentsSkip(' ', "| .Title ");
    SegmentsSkip('|', " .Title ");
    SegmentsSkip(' ', ".Title ");
    SegmentsWord("Title", " ");
    SegmentsSkip(' ', "");
  }

  /** Hugo's whitespace-trimming delimiters `{{-` and `-}}` fall outside the
      pattern: the reference inside is not reported. */
  lemma TrimMarkersHideReference(w: char -> bool)
    requires ModelsWordClass(w)
    ensures Extraction(w, "{{- .Site.Title -}}", "html") == Some(NoParams)
  {
    assert "{{- .Site.Title -}}" == "{{" + "" + ['-'] + " .Site.Title -}}";
    assert "" + ['-'] + " .Site.Title -}}" == "- .Site.Title -}}" + "";
    assert !InExprClass(w, '-');
    UnclosedOpening(w, "", '-', " .Site.Title -}}");
    BracelessThen(w, "- .Site.Title -}}", "");
    EmptyHtml(w);
  }

  /** A quoted argument ends the class run before `}}`: the whole
      expression is not matched. */
  lemma QuotedArgumentHidesReference(w: char -> bool)
    requires ModelsWordClass(w)
    ensures Extraction(w, "{{ .Params.x | default \"y\" }}", "html") == Some(NoParams)
  {
    var x := " .Params.x | default ";
    QuotedText(x);
    assert !InExprClass(w, '"');
    UnclosedOpening(w, x, '"', "y\" }}");
    BracelessThen(w, x + ['"'] + "y\" }}", "");
    EmptyHtml(w);
  }

  lemma QuotedText(x: string)
    requires x == " .Params.x | default "
    ensures "{{ .Params.x | default \"y\" }}" == "{{" + x + ['"'] + "y\" }}"
    ensures x + ['"'] + "y\" }}" == x + ['"'] + "y\" }}" + ""
    ensures forall c :: c in x ==> c == ' ' || c == '.' || c == '|' || IsAsciiWordChar(c)
  {
  }

  /** Two expressions in markup: each reports its own classification and
      the markup around them nothing. */
  lemma TwoExpressionsInMarkup(w: char -> bool, a: string, x: string, b: string, y: string, c: string)
    requires ModelsWordClass(w)
    requires '{' !in a && '{' !in b && '{' !in c
    requires 0 < |x| && forall d :: d in x ==> InExprClass(w, d)
    requires 0 < |y| && forall d :: d in y ==> InExprClass(w, d)
    ensures Extraction(w, a + ("{{" + x + "}}") + b + ("{{" + y + "}}") + c, "html")
      == Some(Union(MatchParams(x), MatchParams(y)))
  {
    var ey, ex := "{{" + y + "}}", "{{" + x + "}}";
    Regroup(a, ex, b, ey, c);
    assert ex + (b + (ey + c)) == "{{" + x + "}}" + (b + (ey + c));
    LastExpression(w, b, y, c);
    ExpressionThen(w, x, b + (ey + c));
    BracelessThen(w, a, ex + (b + (ey + c)));
  }

  /** Markup, one expression, markup: the expression's classification. */
  lemma LastExpression(w: char -> bool, b: string, y: string, c: string)
    requires ModelsWordClass(w)
    requires '{' !in b && '{' !in c
    requires 0 < |y| && forall d :: d in y ==> InExprClass(w, d)
    ensures Extraction(w, b + ("{{" + y + "}}" + c), "html") == Some(MatchParams(y))
  {
    BracelessThen(w, c, "");
    assert c + "" == c;
    EmptyHtml(w);
    ExpressionThen(w, y, c);
    BracelessThen(w, b, "{{" + y + "}}" + c);
    assert Union(MatchParams(y), NoParams) == MatchParams(y);
  }

  lemma Regroup(a: string, ex: string, b: string, ey: string, c: string)
    ensures a + ex + b + ey + c == a + (ex + (b + (ey + c)))
  {
  }

  /** The header partial of a theme: `<div>{{ .Site.Title }} {{ .Params.Author }}</div>`. */
  lemma HeaderTemplate(w: char -> bool)
    requires ModelsWordClass(w)
    ensures Extraction(w, "<div>" + "{{ .Site.Title }}" + " " + "{{ .Params.Author }}" + "</div>", "html")
      == Some(ParamSets({"Title"}, {"Author"}))
  {
    var a, b := ["Site", "Title"], ["Params", "Author"];
    TitleReference(w, a);
    AuthorReference(w, b);
    var r := Union(MatchParams(Spaced(" ", a, " ")), MatchParams(Spaced(" ", b, " ")));
    assert r == ParamSets({"Title"}, {"Author"});
    TwoExpressionsInMarkup(w, "<div>", Spaced(" ", a, " "), " ", Spaced(" ", b, " "), "</div>");
  }

  lemma TitleReference(w: char -> bool, a: seq<string>)
    requires ModelsWordClass(w) && a == ["Site", "Title"]
    ensures "{{ .Site.Title }}" == "{{" + Spaced(" ", a, " ") + "}}"
    ensures MatchParams(Spaced(" ", a, " ")) == ParamSets({"Title"}, {})
    ensures forall c :: c in Spaced(" ", a, " ") ==> InExprClass(w, c)
  {
    PairText("Site", "Title");
    assert "{{ ." + "Site" + "." + "Title" + " }}" == "{{ .Site.Title }}";
    SpacedSegments(" ", a, " ");
    SpacedInClass(w, " ", a, " ");
    assert IsSiteParam(a, 1);
  }

  lemma AuthorReference(w: char -> bool, b: seq<string>)
    requires ModelsWordClass(w) && b == ["Params", "Author"]
    ensures "{{ .Params.Author }}" == "{{" + Spaced(" ", b, " ") + "}}"
    ensures MatchParams(Spaced(" ", b, " ")) == ParamSets({}, {"Author"})
    ensures forall c :: c in Spaced(" ", b, " ") ==> InExprClass(w, c)
  {
    PairText("Params", "Author");
    assert "{{ ." + "Params" + "." + "Author" + " }}" == "{{ .Params.Author }}";
    SpacedSegments(" ", b, " ");
    SpacedInClass(w, " ", b, " ");
    assert IsNormalParam(b, 1);
  }

  /** A two-segment reference written with one space inside each brace. */
  lemma PairText(x: string, y: string)
    ensures "{{" + Spaced(" ", [x, y], " ") + "}}" == "{{ ." + x + "." + y + " }}"
  {
    DottedPair(x, y);
  }

  lemma DottedPair(x: string, y: string)
    ensures Dotted([x, y]) == "." + x + "." + y
  {
    assert [x, y][1..] == [y];
    assert [y][1..] == [];
    assert Dotted([y]) == "." + y + [];
    assert Dotted([x, y]) == "." + x + ("." + y + []);
  }

  /** A theme with a header partial, a stylesheet the walk skips, and a
      JSON file that reports nothing but still gives its layout an entry. */
  lemma HeaderPartialWalk(w: char -> bool)
    requires ModelsWordClass(w)
    ensures var es := [Entry("partials", "header.html", "<div>" + "{{ .Site.Title }}" + " " + "{{ .Params.Author }}" + "</div>"),
                       Entry("partials", "style.css", "{{ .Site.Foo }}"),
                       Entry("_default", "index.json", "{\"a\": 1}")];
      GlobalParams(w, es) == ParamSets({"Title"}, {"Author"}) &&
      LayoutParams(w, es) == map["partials" := ParamSets({"Title"}, {"Author"}), "_default" := NoParams]
  {
    var e1 := Entry("partials", "header.html", "<div>" + "{{ .Site.Title }}" + " " + "{{ .Params.Author }}" + "</div>");
    var e2 := Entry("partials", "style.css", "{{ .Site.Foo }}");
    var e3 := Entry("_default", "index.json", "{\"a\": 1}");
    var t := ParamSets({"Title"}, {"Author"});
    HeaderFile(w, e1);
    WalkFirst(w, e1, t);
    SkippedStylesheet(e2);
    WalkSkip(w, [e1], e2);
    assert [e1] + [e2] == [e1, e2];
    JsonFile(w, e3);
    WalkLast(w, [e1, e2], e3, t);
    assert [e1, e2] + [e3] == [e1, e2, e3];
  }

  lemma WalkFirst(w: char -> bool, e: Entry, t: ParamSets)
    requires Recognized(e) && FileParams(w, e) == t
    ensures GlobalParams(w, [e]) == t && LayoutParams(w, [e]) == map[e.layout := t]
  {
    assert [] + [e] == [e];
    FirstGlobal(w, e, t);
    FirstLayout(w, e, t);
  }

  lemma FirstGlobal(w: char -> bool, e: Entry, t: ParamSets)
    requires FileParams(w, e) == t
    ensures GlobalParams(w, [] + [e]) == t
  {
    GlobalSnoc(w, [], e);
    assert GlobalParams(w, []) == NoParams;
    assert Union(NoParams, t) == t;
  }

  lemma FirstLayout(w: char -> bool, e: Entry, t: ParamSets)
    requires Recognized(e) && FileParams(w, e) == t
    ensures LayoutParams(w, [] + [e]) == map[e.layout := t]
  {
    assert Layouts([]) == {};
    assert LayoutParams(w, []) == map[];
    assert Union(NoParams, t) == t;
    LayoutSnoc(w, [], e);
  }

  lemma WalkSkip(w: char -> bool, es: seq<Entry>, e: Entry)
    requires !Recognized(e)
    ensures GlobalParams(w, es + [e]) == GlobalParams(w, es)
    ensures LayoutParams(w, es + [e]) == LayoutParams(w, es)
  {
    GlobalSnoc(w, es, e);
    LayoutSnoc(w, es, e);
    assert Union(GlobalParams(w, es), NoParams) == GlobalParams(w, es);
  }

  lemma WalkLast(w: char -> bool, es: seq<Entry>, e: Entry, t: ParamSets)
    requires GlobalParams(w, es) == t && LayoutParams(w, es) == map["partials" := t]
    requires e.layout == "_default" && Recognized(e) && FileParams(w, e) == NoParams
    ensures GlobalParams(w, es + [e]) == t
    ensures LayoutParams(w, es + [e]) == map["partials" := t, "_default" := NoParams]
  {
    GlobalSnoc(w, es, e);
    LayoutSnoc(w, es, e);
    assert Union(t, NoParams) == t;
    assert Union(NoParams, NoParams) == NoParams;
  }

  lemma HeaderFile(w: char -> bool, e: Entry)
    requires ModelsWordClass(w)
    requires e == Entry("partials", "header.html", "<div>" + "{{ .Site.Title }}" + " " + "{{ .Params.Author }}" + "</div>")
    ensures Recognized(e) && FileParams(w, e) == ParamSets({"Title"}, {"Author"})
  {
    assert "header.html"[6..] == ".html";
    HeaderTemplate(w);
  }

  lemma SkippedStylesheet(e: Entry)
    requires e == Entry("partials", "style.css", "{{ .Site.Foo }}")
    ensures !Recognized(e)
  {
    var n := e.fileName;
    assert n[|n| - 1] == 's';
  }

  lemma JsonFile(w: char -> bool, e: Entry)
    requires e == Entry("_default", "index.json", "{\"a\": 1}")
    ensures Recognized(e) && FileParams(w, e) == NoParams
  {
    var n := e.fileName;
    assert n[|n| - 1] == 'n';
    assert n[5..] == ".json";
    NonHtmlReportsNothing(w, e.content, "json");
  }
}
