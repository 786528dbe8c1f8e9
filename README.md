# Hugo theme parameter extractor, modelled in Dafny

The tool scans the template, JSON and XML files of a Hugo theme for the
parameters the theme reads. It reports them as two sets:

- `Site`: an identifier, other than `Params`, written right after a `.Site` segment;
- `Params`: an identifier written right after a `.Params` segment.

It reports both sets for the whole theme and for each layout directory. It
then turns the sets into lists for a YAML report.

This project models three parts of `src/hugo_param_extractor.py`:

- **Scanning** (`scanning.dfy`, module `Scanning`). The four regular
  expressions of the script are hand-written scanners over `seq<char>`:
  - the html expression `{{\s*([\.\w\s|]+)\s*}}`;
  - the JSON key `"([a-zA-Z0-9_]+)":`;
  - the XML tag `<([a-zA-Z0-9_]+)`;
  - the dot-segment `\.([a-zA-Z0-9_]+)`.

  `MatchAt` is the attempt at one position. `FindMatches` is `re.findall`'s
  leftmost, non-overlapping search. Both are proved against `IsMatch`, a
  declarative reading of each pattern.
- **Extraction** (`extractor.dfy`, module `Extractor`).
  - `ExtractHugoParams` is the function's outer loop over the matches, and
    `AddClassified` its inner loop over one match's segments, adding to the
    two sets. They are proved equal to `Extraction`, which is built from
    `Classify`, a position-by-position reference definition of the
    Site/Params rule.
  - The lemmas state what the result holds:
    - every reported name is a segment of some match;
    - JSON and XML files report nothing;
    - any `{{ .Site.x }}`, `{{ .Params.x }}` or `{{ .Site.Params.x }}`
      written anywhere in a template is reported in the right set.
- **Aggregation** (`aggregator.dfy`, module `Aggregator`).
  `TraverseThemeDirectory` is the walk's loop over files:
  - it chooses the file type by suffix;
  - it unions into the theme-wide sets;
  - it creates a layout entry on first use and unions into it.

  It is proved equal to set-comprehension definitions of the theme-wide
  sets and the per-layout map. Lemmas relate the two, and show the result
  does not depend on the order of the files.
- **Report reshaping** (`output.dfy`, module `Output`). The
  `organized_params` dictionary of `save_to_yaml` is related to its input
  sets for any order that `list(set)` may produce. The lists read back as
  exactly the sets.

`scenarios.dfy` (module `Scenarios`) derives the result for concrete
templates and for a small theme from the general lemmas.

Modelling choices:

- Python's `\w` in the html pattern is Unicode. It is a parameter
  `w: char -> bool`. Lemmas that need it require `ModelsWordClass(w)`: `w`
  agrees with `[a-zA-Z0-9_]` on ASCII and is left open beyond.
- Python's `\s` is modelled as its whitespace set.
- For a `file_type` other than `html`, `json` and `xml`, the source leaves
  `pattern` unbound and `re.findall` raises. The model returns `None`
  there.
- The directory walk is a sequence of `Entry(layout, fileName, content)`.
  `layout` is the base name of the file's directory.

## Model

| member | source | states |
|---|---|---|
| Scanning.IsAsciiWordChar | src/hugo_param_extractor.py:24-26 | the class `[a-zA-Z0-9_]` of the JSON-key, XML-tag and dot-segment patterns (also used at line 33): a lower-case or upper-case ASCII letter, an ASCII digit, or `_` |
| Scanning.IsSpace | src/hugo_param_extractor.py:22 | `\s` of a text pattern: the characters Python counts as Unicode whitespace, written out as code-point ranges |
| Scanning.InExprClass | src/hugo_param_extractor.py:22 | the class `[\.\w\s\|]`: a dot, a word character (the parameter `w`), whitespace, or a pipe |
| Scanning.IsMatch | src/hugo_param_extractor.py:22-26 | the declarative reading of each pattern: the exact characters around a non-empty class run, and, for the xml and dot patterns, no word character right after it |
| Scanning.RunEnd | src/hugo_param_extractor.py:22-26 | the greedy `+` of a capture class from a position ends within the text, at the end or at a character outside the class |
| Scanning.RunEndClass | src/hugo_param_extractor.py:22-26 | every character the greedy run takes is in the class |
| Scanning.MatchAt | src/hugo_param_extractor.py:22-26 | a match found at position i starts at i and ends after it, within the text |
| Scanning.MatchAtSound | src/hugo_param_extractor.py:22-26 | a match found at position i is a match of the pattern's regular expression (html: `{{`, a non-empty class run, `}}`; json: quote, word run, quote, colon; xml and dot: prefix then a maximal word run) |
| Scanning.MatchAtFindsEveryMatch | src/hugo_param_extractor.py:22-26 | conversely, every match the regular expression admits at a position is the one found there: the greedy run is the only run that can succeed |
| Scanning.FindMatchesSound | src/hugo_param_extractor.py:28 | every match `re.findall` returns is a match at its own start, and the matches come in order without overlapping |
| Scanning.FindMatchesLeftmost | src/hugo_param_extractor.py:28 | no match is missed: every position where the pattern matches lies inside one of the returned matches |
| Scanning.SkipUnmatched | src/hugo_param_extractor.py:28 | positions where the pattern does not match are skipped one by one |
| Scanning.FindMatches | src/hugo_param_extractor.py:28 | `re.findall`'s search from a position: try the pattern there; on a match keep it and resume at its end, otherwise move one position on |
| Scanning.FindAll | src/hugo_param_extractor.py:28 | `re.findall` with one group: the captures of the matches the search finds from the start, in order |
| Scanning.FindExpressions | src/hugo_param_extractor.py:22-28 | `re.findall` with the html pattern of line 22: the captures of the html scanner over the text, each keeping the leading whitespace Python's `\s*` would take (see "## Left out") |
| Scanning.Segments | src/hugo_param_extractor.py:33 | `re.findall(r'\.([a-zA-Z0-9_]+)', match)`: the dot-segment search over one match |
| Scanning.FindAllTokens | src/hugo_param_extractor.py:28 | every captured group is non-empty and made of the pattern's capture class |
| Scanning.SegmentIsIdentifier | src/hugo_param_extractor.py:33 | every segment is a non-empty `[a-zA-Z0-9_]+` token and holds no dot |
| Scanning.DotlessHasNoSegments | src/hugo_param_extractor.py:33 | a text without a dot has no segments |
| Scanning.CapturesIgnorePrefix | src/hugo_param_extractor.py:28 | text in front of a position does not change what the search finds from it |
| Scanning.ExpressionThenRest | src/hugo_param_extractor.py:22-28 | a complete `{{x}}` is found as `x`, and the search resumes right after its `}}` |
| Scanning.BracelessThenRest | src/hugo_param_extractor.py:22-28 | text without `{` in front of the rest adds no html match |
| Scanning.UnclosedOpening | src/hugo_param_extractor.py:22-28 | `{{` whose class run ends at a character outside the class, other than `}` and other than `{`, opens no match; the search moves past the braces |
| Scanning.ContainedExpressionIsFound | src/hugo_param_extractor.py:22-28 | an html match at any position of the text is among the matches found: an opening `{{` never lies inside another match |
| Scanning.ExpressionInside | src/hugo_param_extractor.py:22-28 | `{{x}}` written anywhere in a text is one of its html matches |
| Scanning.SegmentsSkip | src/hugo_param_extractor.py:33 | a character other than `.` starts no segment |
| Scanning.SegmentsWord | src/hugo_param_extractor.py:33 | `.t` followed by a non-word character is the one segment `t` |
| Scanning.SegmentsDotted | src/hugo_param_extractor.py:33 | the segments of `.a.b.c` are exactly `[a, b, c]` |
| Scanning.BlankSegments | src/hugo_param_extractor.py:22-33 | whitespace in front of a text adds no segment, so the whitespace the `\s*` around the html group could take never changes what is classified |
| Extractor.PatternFor | src/hugo_param_extractor.py:21-26 | a pattern is chosen exactly for `html`, `json` and `xml`, and it is the html pattern exactly for `html` |
| Extractor.IsSiteParam | src/hugo_param_extractor.py:35 | the `if` test: a position after `Site` whose segment is not `Params` |
| Extractor.IsNormalParam | src/hugo_param_extractor.py:37 | the `elif` test: the `if` test failed and the position is after `Params` |
| Extractor.Classify | src/hugo_param_extractor.py:34-38 | the two sets one match's segments add: the segments at positions passing the `if` test, and those passing the `elif` test |
| Extractor.Contribution | src/hugo_param_extractor.py:35-38 | one pass of the `if`/`elif`: the segment at that position goes to the site set, to the page set, or nowhere |
| Extractor.MatchParams | src/hugo_param_extractor.py:33-38 | one match's contribution: the classification of its segments |
| Extractor.UnionAll | src/hugo_param_extractor.py:30-38 | the sets after the outer loop: the union of the matches' contributions, left to right, starting from two empty sets |
| Extractor.ClassifyBounds | src/hugo_param_extractor.py:34-38 | `Params` is never a site parameter, every classified name is a segment of the match, and fewer than two segments classify nothing |
| Extractor.ClassifyPrefix | src/hugo_param_extractor.py:34-38 | classifying one more position adds exactly that position's contribution: at most one name, to at most one set |
| Extractor.Extraction | src/hugo_param_extractor.py:21-28 | the function returns a result exactly for the three known file types |
| Extractor.ExtractHugoParams | src/hugo_param_extractor.py:9-40 | the outer loop over the matches returns exactly the union over all matches of each match's classification, and nothing for an unknown file type |
| Extractor.AddClassified | src/hugo_param_extractor.py:33-38 | the inner loop over one match's segments adds exactly that match's classification to `site_params_set` and `normal_params_set` |
| Extractor.UnionAllMember | src/hugo_param_extractor.py:30-40 | a name is in the returned set exactly when one match's classification has it |
| Extractor.ExtractedAreSegments | src/hugo_param_extractor.py:32-38 | every reported name is an identifier and a segment of one of the matches |
| Extractor.ParamsNeverSite | src/hugo_param_extractor.py:35-36 | `Params` is never in the returned site set, for any text and any file type |
| Extractor.NonHtmlReportsNothing | src/hugo_param_extractor.py:23-38 | JSON keys and XML tag names hold no dot, so these file types report two empty sets |
| Extractor.ContainedExpression | src/hugo_param_extractor.py:28-38 | wherever an expression `{{x}}` stands in an html text, the classification of its segments is part of the result |
| Extractor.ContainedReference | src/hugo_param_extractor.py:22-38 | wherever `{{ .a.b… }}` stands in an html text, with any whitespace inside the braces, the classification of the path `a, b, …` is part of the result |
| Extractor.SingleReference | src/hugo_param_extractor.py:22-38 | a template that is one reference `{{ .a.b… }}`, with any whitespace inside the braces, reports exactly the classification of its path |
| Extractor.SiteReference | src/hugo_param_extractor.py:35-36 | `{{ .Site.x }}` anywhere, with any whitespace inside the braces, reports `x` as a site parameter when `x` is not `Params` |
| Extractor.ParamsReference | src/hugo_param_extractor.py:37-38 | `{{ .Params.x }}` anywhere, with any whitespace inside the braces, reports `x` as a page parameter |
| Extractor.SiteParamsReference | src/hugo_param_extractor.py:35-38 | `{{ .Site.Params.x }}` anywhere, with any whitespace inside the braces, reports `x` as a page parameter |
| Extractor.SiteParamsClassify | src/hugo_param_extractor.py:35-38 | the path `Site, Params, x` classifies exactly `x`, as a page parameter and never as a site parameter, for every `x` |
| Extractor.SpacedSegments | src/hugo_param_extractor.py:33 | the segments of `.a.b…` with whitespace on both sides are the path itself |
| Extractor.ExpressionThen | src/hugo_param_extractor.py:28-38 | an expression in front adds its own classification to what the rest of the text reports |
| Extractor.SingleExpression | src/hugo_param_extractor.py:28-38 | a text that is one expression reports exactly that expression's classification |
| Extractor.BracelessThen | src/hugo_param_extractor.py:22-38 | text without `{` in front of the rest reports nothing more |
| Aggregator.EndsWith | src/hugo_param_extractor.py:59-63 | `str.endswith`: the last characters of the name are the suffix |
| Aggregator.FileType | src/hugo_param_extractor.py:58-64 | the `if`/`elif` chain on the suffixes, in the source's order: `html`, `json`, `xml`, or no type |
| Aggregator.FileTypeBySuffix | src/hugo_param_extractor.py:58-64 | each file type is chosen exactly by its own suffix, and a name with none of the three suffixes is skipped |
| Aggregator.SuffixesExclusive | src/hugo_param_extractor.py:59-64 | no name ends in two of `.html`, `.json`, `.xml`, so the order of the tests does not matter |
| Aggregator.Recognized | src/hugo_param_extractor.py:66 | `if file_type:`: the name has one of the three suffixes |
| Aggregator.FileParams | src/hugo_param_extractor.py:58-70 | what one file contributes: the extraction of its text with its type when the type is known, two empty sets when the file is skipped |
| Aggregator.GlobalParams | src/hugo_param_extractor.py:71-72 | the theme-wide sets as a definition: every name some walked file reports, in each set |
| Aggregator.LayoutParams | src/hugo_param_extractor.py:74-77 | the layout map as a definition: a key for each layout directory holding a recognised file, mapped to every name its files report |
| Aggregator.LayoutOf | src/hugo_param_extractor.py:74-77 | the value `layout_params[l]`: every name reported by a recognised file in a directory whose base name is `l`, in each set |
| Aggregator.TraverseThemeDirectory | src/hugo_param_extractor.py:52-79 | the loop over files returns the union of every recognised file's sets, and per layout directory with a recognised file the union of its files' sets |
| Aggregator.GlobalSnoc | src/hugo_param_extractor.py:70-72 | one more file adds exactly its own sets to the theme-wide sets |
| Aggregator.LayoutSnoc | src/hugo_param_extractor.py:66-77 | one more file leaves the layout map alone when skipped, and otherwise creates its layout's entry with empty sets if missing and adds its sets to it |
| Aggregator.UnseenLayout | src/hugo_param_extractor.py:74-75 | a layout with no recognised file has nothing to report, so a new entry starts empty |
| Aggregator.ExtractionNeverFails | src/hugo_param_extractor.py:58-70 | every file the walk extracts has a type the extractor accepts, so the unbound-pattern failure is never reached |
| Aggregator.LayoutsWithinTheme | src/hugo_param_extractor.py:71-77 | each layout's sets are subsets of the theme-wide sets |
| Aggregator.ThemeIsUnionOfLayouts | src/hugo_param_extractor.py:52-79 | a name is in a theme-wide set exactly when it is in that set of some layout |
| Aggregator.WalkOrderIrrelevant | src/hugo_param_extractor.py:55-79 | the order in which the walk meets the files, and meeting a file twice, change neither result |
| Output.Lists | src/hugo_param_extractor.py:91-93 | what `list(s)` is for a set: each element of the set exactly once, and nothing else |
| Output.ListOf | src/hugo_param_extractor.py:91-92 | `list(s)` holds every element of the set exactly once |
| Output.Organize | src/hugo_param_extractor.py:90-94 | `organized_params` lists the two theme-wide sets and, under exactly the same layout keys, each layout's two sets |
| Output.ReadBackRoundTrip | src/hugo_param_extractor.py:90-94 | whatever the list orders, the lists read back as exactly the sets they were made from, under every layout |
| Output.ListLength | src/hugo_param_extractor.py:91-92 | each list is exactly as long as its set |
| Output.OrdersAgree | src/hugo_param_extractor.py:90-94 | any two list orders of the same results hold the same names, and every list, theme-wide and per layout, has the same length in both |
| Scenarios.SiteParamsFoo | src/hugo_param_extractor.py:35-38 | `{{ .Site.Params.Foo }}` reports `Foo` as a page parameter and nothing as a site parameter |
| Scenarios.BareSiteTitle | src/hugo_param_extractor.py:22-36 | `{{.Site.Title}}`, with no whitespace inside the braces, reports exactly `Title` as a site parameter |
| Scenarios.SeparateExpressions | src/hugo_param_extractor.py:32-33 | `{{ .Site }}{{ .Title }}` reports nothing: segments never cross an expression boundary |
| Scenarios.PipeJoinsSegments | src/hugo_param_extractor.py:22-36 | `{{ .Site \| .Title }}` reports `Title` as a site parameter: the pipe is inside the class and the two segments form one path |
| Scenarios.TrimMarkersHideReference | src/hugo_param_extractor.py:22 | `{{- .Site.Title -}}` reports nothing: `-` is outside the class |
| Scenarios.QuotedArgumentHidesReference | src/hugo_param_extractor.py:22 | `{{ .Params.x \| default "y" }}` reports nothing: the quote ends the class run before `}}` |
| Scenarios.TwoExpressionsInMarkup | src/hugo_param_extractor.py:28-38 | two expressions in three pieces of markup without `{` report the union of their classifications, and the markup reports nothing |
| Scenarios.HeaderTemplate | src/hugo_param_extractor.py:9-40 | `<div>{{ .Site.Title }} {{ .Params.Author }}</div>` reports `Title` as a site parameter and `Author` as a page parameter |
| Scenarios.HeaderPartialWalk | src/hugo_param_extractor.py:52-79 | a theme with that header in `partials`, a skipped stylesheet, and a JSON file in `_default` reports `Title` and `Author`; `partials` holds both, and `_default` has an entry with empty sets |

## Left out

- The filesystem walk, `os.path.basename`, `os.path.join`, and opening, reading and UTF-8 decoding files (lines 55-69) are I/O. The model takes the walk's files as a sequence of entries, each with its directory's base name. A read or decode failure ends the run and is not modelled.
- `yaml.dump` and writing the output file (lines 95-96) are a foreign library and I/O. The model stops at the `organized_params` dictionary.
- `main`, `argparse` and `print` (lines 98-110) are command-line glue.
- Output.Organize: Python's set iteration order is not modelled. The model picks one order and states its properties for every order a list may have.
- Scanning.FindAll, Scanning.FindExpressions: for the html pattern, the capture keeps the whitespace that the optional `\s*` around the group may take. Python's group may be shorter by that whitespace. Whitespace never changes the segments found in it (`Scanning.BlankSegments`), so no reported set differs.
- Scanning.InExprClass: Python's Unicode `\w` is a parameter. It is fixed only on ASCII, where it is `[a-zA-Z0-9_]`.
- Extractor.Extraction: for an unknown file type the source raises `UnboundLocalError` at `re.findall`. The model returns `None` and does not model the exception.
- The per-file result dictionary `{"Site": ..., "Params": ...}` is the datatype `ParamSets`. The lists of `organized_params` are `seq<string>`, and its dictionary is a datatype with one field per key.
