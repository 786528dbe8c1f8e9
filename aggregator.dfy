/** `traverse_theme_directory`: the per-file results merged into one
    theme-wide pair of sets and one pair of sets per layout directory. */
module Aggregator {
  import opened Scanning
  import opened Extractor

  /** One file met by the walk: the base name of the directory holding it,
      its file name, and its text. */
  datatype Entry = Entry(layout: string, fileName: string, content: string)

  predicate EndsWith(s: string, suffix: string) {
    |suffix| <= |s| && s[|s| - |suffix|..] == suffix
  }

  /** The suffix tests on the file name, in the source's order; None for
      every other file, which the walk skips. */
  function FileType(name: string): Option<string> {
    if EndsWith(name, ".html") then Some("html")
    else if EndsWith(name, ".json") then Some("json")
    else if EndsWith(name, ".xml") then Some("xml")
    else None
  }

  /** Each file type is chosen by exactly its own suffix, and the types
      chosen are exactly those the extractor accepts. */
  lemma FileTypeBySuffix(name: string)
    ensures FileType(name) == Some("html") <==> EndsWith(name, ".html")
    ensures FileType(name) == Some("json") <==> EndsWith(name, ".json")
    ensures FileType(name) == Some("xml") <==> EndsWith(name, ".xml")
    ensures FileType(name).None? <==>
      !EndsWith(name, ".html") && !EndsWith(name, ".json") && !EndsWith(name, ".xml")
  {
    SuffixesExclusive(name);
  }

  /** No name ends in two of the three suffixes, so the order of the tests
      does not matter. */
  lemma SuffixesExclusive(name: string)
    ensures !(EndsWith(name, ".html") && EndsWith(name, ".json"))
    ensures !(EndsWith(name, ".html") && EndsWith(name, ".xml"))
    ensures !(EndsWith(name, ".json") && EndsWith(name, ".xml"))
  {
    var n := |name|;
    if EndsWith(name, ".html") {
      assert name[n - 1] == 'l' && name[n - 4] == 'h';
    }
    if EndsWith(name, ".json") {
      assert name[n - 1] == 'n';
    }
    if EndsWith(name, ".xml") {
      assert name[n - 1] == 'l' && name[n - 4] == '.';
    }
  }

  predicate Recognized(e: Entry) {
    FileType(e.fileName).Some?
  }

  /** What one file contributes: its extraction result, nothing for a
      skipped file. */
  function FileParams(w: char -> bool, e: Entry): ParamSets {
    match FileType(e.fileName)
    case None => NoParams
    case Some(t) => Extraction(w, e.content, t).value
  }

  /** The theme-wide sets: every identifier some file reports. */
  ghost function GlobalParams(w: char -> bool, es: seq<Entry>): ParamSets {
    ParamSets(
      set e, x | e in es && x in FileParams(w, e).site :: x,
      set e, x | e in es && x in FileParams(w, e).params :: x)
  }

  /** The layout directories holding at least one recognised file. */
  ghost function Layouts(es: seq<Entry>): set<string> {
    set e | e in es && Recognized(e) :: e.layout
  }

  /** The sets of one layout: every identifier a file under it reports. */
  ghost function LayoutOf(w: char -> bool, es: seq<Entry>, l: string): ParamSets {
    ParamSets(
      set e, x | e in es && e.layout == l && x in FileParams(w, e).site :: x,
      set e, x | e in es && e.layout == l && x in FileParams(w, e).params :: x)
  }

  /** `layout_params`: one entry per layout directory with a recognised file. */
  ghost function LayoutParams(w: char -> bool, es: seq<Entry>): map<string, ParamSets> {
    map l | l in Layouts(es) :: LayoutOf(w, es, l)
  }

  /** The walk's loop: each recognised file is extracted and its sets are
      added to the theme-wide sets and to its layout's sets, the layout's
      entry being created on its first recognised file. */
  method TraverseThemeDirectory(w: char -> bool, entries: seq<Entry>)
    returns (categorized: ParamSets, layoutParams: map<string, ParamSets>)
    ensures categorized == GlobalParams(w, entries)
    ensures layoutParams == LayoutParams(w, entries)
  {
    var site: set<string> := {};
    var normal: set<string> := {};
    layoutParams := map[];
    for k := 0 to |entries|
      invariant ParamSets(site, normal) == GlobalParams(w, entries[..k])
      invariant layoutParams == LayoutParams(w, entries[..k])
    {
      var e := entries[k];
      assert entries[..k + 1] == entries[..k] + [e];
      ghost var m := layoutParams;
      var fileType := FileType(e.fileName);
      if fileType.Some? {
        var params := ExtractHugoParams(w, e.content, fileType.value);
        assert params.value == FileParams(w, e);
        site := site + params.value.site;
        normal := normal + params.value.params;
        if e.layout !in layoutParams {
          layoutParams := layoutParams[e.layout := NoParams];
        }
        layoutParams := layoutParams[e.layout := Union(layoutParams[e.layout], params.value)];
        AddToLayout(m, e.layout, params.value, layoutParams);
      }
      GlobalSnoc(w, entries[..k], e);
      LayoutSnoc(w, entries[..k], e);
    }
    assert entries[..|entries|] == entries;
    categorized := ParamSets(site, normal);
  }

  /** Creating the entry when missing and then adding to it is adding to
      the entry or to nothing. */
  lemma AddToLayout(m: map<string, ParamSets>, l: string, p: ParamSets, m': map<string, ParamSets>)
    requires m' == (if l in m then m else m[l := NoParams])[l := Union((if l in m then m else m[l := NoParams])[l], p)]
    ensures m' == m[l := Union(if l in m then m[l] else NoParams, p)]
  {
  }

  lemma GlobalSnoc(w: char -> bool, es: seq<Entry>, e: Entry)
    ensures GlobalParams(w, es + [e]) == Union(GlobalParams(w, es), FileParams(w, e))
  {
    var before, after := GlobalParams(w, es), GlobalParams(w, es + [e]);
    forall x | x in after.site
      ensures x in before.site || x in FileParams(w, e).site
    {
      var d :| d in es + [e] && x in FileParams(w, d).site;
    }
    forall x | x in after.params
      ensures x in before.params || x in FileParams(w, e).params
    {
      var d :| d in es + [e] && x in FileParams(w, d).params;
    }
  }

  /** A layout without a recognised file has nothing to report. */
  lemma UnseenLayout(w: char -> bool, es: seq<Entry>, l: string)
    requires l !in Layouts(es)
    ensures LayoutOf(w, es, l) == NoParams
  {
    forall d | d in es && d.layout == l
      ensures FileParams(w, d) == NoParams
    {
      assert !Recognized(d);
    }
  }

  lemma LayoutOfSnoc(w: char -> bool, es: seq<Entry>, e: Entry, l: string)
    ensures LayoutOf(w, es + [e], l) ==
      if e.layout == l then Union(LayoutOf(w, es, l), FileParams(w, e)) else LayoutOf(w, es, l)
  {
    var before, after := LayoutOf(w, es, l), LayoutOf(w, es + [e], l);
    forall x | x in after.site
      ensures x in before.site || (e.layout == l && x in FileParams(w, e).site)
    {
      var d :| d in es + [e] && d.layout == l && x in FileParams(w, d).site;
    }
    forall x | x in after.params
      ensures x in before.params || (e.layout == l && x in FileParams(w, e).params)
    {
      var d :| d in es + [e] && d.layout == l && x in FileParams(w, d).params;
    }
  }

  lemma LayoutSnoc(w: char -> bool, es: seq<Entry>, e: Entry)
    ensures var m := LayoutParams(w, es);
      LayoutParams(w, es + [e]) ==
        if !Recognized(e) then m
        else m[e.layout := Union(if e.layout in m then m[e.layout] else NoParams, FileParams(w, e))]
  {
    if !Recognized(e) {
      SkippedFile(w, es, e);
    } else {
      RecognizedFile(w, es, e);
    }
  }

  lemma SkippedFile(w: char -> bool, es: seq<Entry>, e: Entry)
    requires !Recognized(e)
    ensures LayoutParams(w, es + [e]) == LayoutParams(w, es)
  {
    assert Layouts(es + [e]) == Layouts(es);
    forall l | l in Layouts(es)
      ensures LayoutOf(w, es + [e], l) == LayoutOf(w, es, l)
    {
      LayoutOfSnoc(w, es, e, l);
      assert Union(LayoutOf(w, es, l), NoParams) == LayoutOf(w, es, l);
    }
  }

  lemma RecognizedFile(w: char -> bool, es: seq<Entry>, e: Entry)
    requires Recognized(e)
    ensures var m := LayoutParams(w, es);
      LayoutParams(w, es + [e]) ==
        m[e.layout := Union(if e.layout in m then m[e.layout] else NoParams, FileParams(w, e))]
  {
    var m := LayoutParams(w, es);
    assert Layouts(es + [e]) == Layouts(es) + {e.layout};
    if e.layout !in m {
      UnseenLayout(w, es, e.layout);
    }
    forall l | l in Layouts(es + [e])
      ensures LayoutOf(w, es + [e], l) ==
        if e.layout == l then Union(if l in m then m[l] else NoParams, FileParams(w, e)) else m[l]
    {
      LayoutOfSnoc(w, es, e, l);
    }
  }

  /** The walk never reaches the extractor's failure on an unknown type:
      every file it extracts has a type the extractor accepts. */
  lemma ExtractionNeverFails(w: char -> bool, e: Entry)
    requires Recognized(e)
    ensures Extraction(w, e.content, FileType(e.fileName).value).Some?
  {
  }

  /** Each layout's sets are part of the theme-wide sets. */
  lemma LayoutsWithinTheme(w: char -> bool, es: seq<Entry>, l: string)
    requires l in LayoutParams(w, es)
    ensures LayoutParams(w, es)[l].site <= GlobalParams(w, es).site
    ensures LayoutParams(w, es)[l].params <= GlobalParams(w, es).params
  {
    var p, g := LayoutParams(w, es)[l], GlobalParams(w, es);
    forall x | x in p.site
      ensures x in g.site
    {
      var e :| e in es && e.layout == l && x in FileParams(w, e).site;
    }
    forall x | x in p.params
      ensures x in g.params
    {
      var e :| e in es && e.layout == l && x in FileParams(w, e).params;
    }
  }

  /** Conversely, every theme-wide identifier is reported under some layout:
      the theme-wide sets are the union of the layouts' sets. */
  lemma ThemeIsUnionOfLayouts(w: char -> bool, es: seq<Entry>, x: string)
    ensures x in GlobalParams(w, es).site <==>
      exists l :: l in LayoutParams(w, es) && x in LayoutParams(w, es)[l].site
    ensures x in GlobalParams(w, es).params <==>
      exists l :: l in LayoutParams(w, es) && x in LayoutParams(w, es)[l].params
  {
    var m := LayoutParams(w, es);
    if x in GlobalParams(w, es).site {
      var e :| e in es && x in FileParams(w, e).site;
      assert Recognized(e);
      assert x in m[e.layout].site;
    }
    if x in GlobalParams(w, es).params {
      var e :| e in es && x in FileParams(w, e).params;
      assert Recognized(e);
      assert x in m[e.layout].params;
    }
    forall l | l in m
      ensures m[l].site <= GlobalParams(w, es).site && m[l].params <= GlobalParams(w, es).params
    {
      LayoutsWithinTheme(w, es, l);
    }
  }

  /** The order in which the walk meets the files, and meeting a file twice,
      change nothing. */
  lemma WalkOrderIrrelevant(w: char -> bool, es1: seq<Entry>, es2: seq<Entry>)
    requires forall e :: e in es1 <==> e in es2
    ensures GlobalParams(w, es1) == GlobalParams(w, es2)
    ensures LayoutParams(w, es1) == LayoutParams(w, es2)
  {
    assert Layouts(es1) == Layouts(es2);
    forall l
      ensures LayoutOf(w, es1, l) == LayoutOf(w, es2, l)
    {
    }
  }
}
