/**
 * The YAML fault-file reader: a table from subsystem to directory filled
 * from the database, the `## Fault <n>` section splitter, the file-name
 * filter, and the two queries `get_all_faults` and `get_fault_tree`.
 *
 * The file system and the YAML loader are not modelled; they are the
 * fields of a FileSystem value that the queries receive.
 */
module YamlParser {
  import opened Wrappers
  import opened Text
  import opened Faults
  import opened Dicts

  /** One row of the `yaml_paths` table; a NULL path is the empty string. */
  datatype PathRow = PathRow(subsystem: string, path: string)

  /**
   * What `yaml.safe_load` gives back, as far as the reader looks at it: a
   * parse error, `None`, a mapping (through its `fault` key), or any other
   * value, with its truth value and the outcome of the test `'fault' in value`
   * (None when that test raises TypeError, as it does for a number).
   */
  datatype Loaded =
    | YamlError
    | Null
    | Mapping(fault: FaultEntry)
    | Other(truthy: bool, faultMember: Option<bool>)

  /** The exceptions that leave the reader; `ReError` is `re.error`, raised by an expression that does not compile. */
  datatype ReaderError = OsError | TypeError | AttributeError | ReError

  /**
   * `os.path.exists`, `os.listdir` (None when it raises), opening and reading
   * a file of a directory (None when that raises), `yaml.safe_load`, and
   * `re.match` of a regular expression against a name (None when the
   * expression does not compile).
   */
  datatype FileSystem = FileSystem(
    pathExists: string -> bool,
    listdir: string -> Option<seq<string>>,
    read: (string, string) -> Option<string>,
    load: string -> Loaded,
    reMatch: (string, string) -> Option<bool>)

  const Marker: string := "## Fault"
  const Header: string := "## Fault "
  const Prefix: string := "fault:"
  const Yaml: string := ".yaml"

  predicate EndsWith(s: string, suffix: string) {
    |suffix| <= |s| && s[|s| - |suffix|..] == suffix
  }

  predicate NoDuplicates(s: seq<string>) {
    forall i, j | 0 <= i < j < |s| :: s[i] != s[j]
  }

  // ---------------------------------------------------------------------
  // The paths table
  // ---------------------------------------------------------------------

  /** Assigns `paths[row.subsystem] = row.path` for every row in order. */
  function LoadPaths(d: Dict<string, string>, rows: seq<PathRow>): (r: Dict<string, string>)
    requires d.Valid()
    ensures r.Valid()
    decreases |rows|
  {
    if rows == [] then d
    else LoadPaths(d, rows[..|rows| - 1]).Put(rows[|rows| - 1].subsystem, rows[|rows| - 1].path)
  }

  /** A subsystem has a path exactly when some row names it. */
  lemma {:induction false} LoadPathsKeys(rows: seq<PathRow>, k: string)
    ensures k in LoadPaths(Empty(), rows).values <==> exists i | 0 <= i < |rows| :: rows[i].subsystem == k
    decreases |rows|
  {
    if rows != [] {
      var init := rows[..|rows| - 1];
      LoadPathsKeys(init, k);
      if exists i | 0 <= i < |init| :: init[i].subsystem == k {
        var i :| 0 <= i < |init| && init[i].subsystem == k;
        assert rows[i] == init[i];
      }
      if exists i | 0 <= i < |rows| :: rows[i].subsystem == k {
        var i :| 0 <= i < |rows| && rows[i].subsystem == k;
        if i < |init| {
          assert init[i] == rows[i];
        }
      }
    }
  }

  /** The last row that names a subsystem decides its path. */
  lemma {:induction false} LoadPathsLastWins(rows: seq<PathRow>, i: int)
    requires 0 <= i < |rows|
    requires forall j | i < j < |rows| :: rows[j].subsystem != rows[i].subsystem
    ensures rows[i].subsystem in LoadPaths(Empty(), rows).values
    ensures LoadPaths(Empty(), rows).values[rows[i].subsystem] == rows[i].path
    decreases |rows|
  {
    if i < |rows| - 1 {
      var init := rows[..|rows| - 1];
      assert init[i] == rows[i];
      LoadPathsLastWins(init, i);
    }
  }

  // ---------------------------------------------------------------------
  // Splitting a file into `## Fault <n>` sections
  // ---------------------------------------------------------------------

  function DigitRun(s: string): (n: nat)
    ensures n <= |s|
    ensures forall i | 0 <= i < n :: IsDigit(s[i])
    ensures n < |s| ==> !IsDigit(s[n])
  {
    if s != [] && IsDigit(s[0]) then 1 + DigitRun(s[1..]) else 0
  }

  /** The length of a match of `## Fault ` and a greedy run of digits at the start of `s`, or 0. */
  function HeaderLen(s: string): (n: nat)
    ensures n == 0 || (|Header| < n <= |s| && s[..|Header|] == Header)
  {
    if StartsWith(s, Header) && |Header| < |s| && IsDigit(s[|Header|])
    then |Header| + DigitRun(s[|Header|..])
    else 0
  }

  predicate IsHeader(h: string) {
    |Header| < |h| && h[..|Header|] == Header && AllDigits(h[|Header|..])
  }

  /** `re.split(r'## Fault \d+', s)`: the pieces between the headers, leftmost match first. */
  function Sections(s: string): (r: seq<string>)
    ensures |r| >= 1
    decreases |s|
  {
    if s == [] then [""]
    else if HeaderLen(s) > 0 then [""] + Sections(s[HeaderLen(s)..])
    else
      var rest := Sections(s[1..]);
      [[s[0]] + rest[0]] + rest[1..]
  }

  /** The header texts that the split cuts out, in order. */
  function Headers(s: string): seq<string>
    decreases |s|
  {
    if s == [] then []
    else if HeaderLen(s) > 0 then [s[..HeaderLen(s)]] + Headers(s[HeaderLen(s)..])
    else Headers(s[1..])
  }

  /** The pieces joined back together with the headers between them. */
  function Reassemble(pieces: seq<string>, headers: seq<string>): string
    requires |pieces| == |headers| + 1
  {
    if headers == [] then pieces[0]
    else pieces[0] + headers[0] + Reassemble(pieces[1..], headers[1..])
  }

  lemma {:induction false} ReassembleCons(c: char, pieces: seq<string>, headers: seq<string>)
    requires |pieces| == |headers| + 1
    ensures Reassemble([[c] + pieces[0]] + pieces[1..], headers) == [c] + Reassemble(pieces, headers)
  {
    var moved := [[c] + pieces[0]] + pieces[1..];
    assert moved[1..] == pieces[1..];
    if headers != [] {
      assert moved[0] + headers[0] + Reassemble(pieces[1..], headers[1..])
          == [c] + (pieces[0] + headers[0] + Reassemble(pieces[1..], headers[1..]));
    }
  }

  /** Every text the split cuts out is `## Fault ` followed by digits. */
  lemma {:induction false} HeadersWellFormed(s: string)
    ensures forall h | h in Headers(s) :: IsHeader(h)
    decreases |s|
  {
    if s == [] {
    } else if HeaderLen(s) > 0 {
      var n := HeaderLen(s);
      HeadersWellFormed(s[n..]);
      assert s[..n][|Header|..] == s[|Header|..][..n - |Header|];
      assert IsHeader(s[..n]);
    } else {
      HeadersWellFormed(s[1..]);
    }
  }

  lemma ReassembleHeader(s: string, n: int, pieces: seq<string>, headers: seq<string>)
    requires 0 <= n <= |s|
    requires |pieces| == |headers| + 1 && Reassemble(pieces, headers) == s[n..]
    ensures Reassemble([""] + pieces, [s[..n]] + headers) == s
  {
    assert ([""] + pieces)[1..] == pieces;
    assert ([s[..n]] + headers)[1..] == headers;
    assert s[..n] + s[n..] == s;
  }

  lemma HeaderFront(s: string)
    requires HeaderLen(s) > 0
    ensures Sections(s) == [""] + Sections(s[HeaderLen(s)..])
    ensures Headers(s) == [s[..HeaderLen(s)]] + Headers(s[HeaderLen(s)..])
  {
  }

  /** A header at the front becomes an empty first piece followed by the header. */
  lemma HeaderRoundTrip(s: string)
    requires HeaderLen(s) > 0
    requires |Sections(s[HeaderLen(s)..])| == |Headers(s[HeaderLen(s)..])| + 1
    requires Reassemble(Sections(s[HeaderLen(s)..]), Headers(s[HeaderLen(s)..])) == s[HeaderLen(s)..]
    ensures |Sections(s)| == |Headers(s)| + 1
    ensures Reassemble(Sections(s), Headers(s)) == s
  {
    HeaderFront(s);
    ReassembleHeader(s, HeaderLen(s), Sections(s[HeaderLen(s)..]), Headers(s[HeaderLen(s)..]));
  }

  /** Any other first character joins the first piece. */
  lemma CharRoundTrip(s: string)
    requires s != [] && HeaderLen(s) == 0
    requires |Sections(s[1..])| == |Headers(s[1..])| + 1
    requires Reassemble(Sections(s[1..]), Headers(s[1..])) == s[1..]
    ensures |Sections(s)| == |Headers(s)| + 1
    ensures Reassemble(Sections(s), Headers(s)) == s
  {
    ReassembleCons(s[0], Sections(s[1..]), Headers(s[1..]));
    assert [s[0]] + s[1..] == s;
  }

  /** Nothing of the text is lost: the pieces and the headers put back together give it again. */
  lemma {:induction false} SectionsRoundTrip(s: string)
    ensures |Sections(s)| == |Headers(s)| + 1
    ensures Reassemble(Sections(s), Headers(s)) == s
    decreases |s|
  {
    if s == [] {
    } else if HeaderLen(s) > 0 {
      SectionsRoundTrip(s[HeaderLen(s)..]);
      HeaderRoundTrip(s);
    } else {
      SectionsRoundTrip(s[1..]);
      CharRoundTrip(s);
    }
  }

  /** The split yields a single piece exactly when no header starts anywhere in the text. */
  lemma {:induction false} SingleSectionIffNoHeader(s: string)
    ensures |Sections(s)| == 1 <==> forall i | 0 <= i <= |s| :: HeaderLen(s[i..]) == 0
    decreases |s|
  {
    SectionsRoundTrip(s);
    if s == [] {
    } else if HeaderLen(s) > 0 {
      assert s[0..] == s;
    } else {
      SingleSectionIffNoHeader(s[1..]);
      SectionsRoundTrip(s[1..]);
      forall i | 1 <= i <= |s| ensures s[i..] == s[1..][i - 1..] {
      }
      if !(forall i | 0 <= i <= |s| :: HeaderLen(s[i..]) == 0) {
        var i :| 0 <= i <= |s| && HeaderLen(s[i..]) != 0;
        assert i != 0 by { assert s[0..] == s; }
        assert HeaderLen(s[1..][i - 1..]) != 0;
      }
    }
  }

  /**
   * A text that does not contain `## Fault` has no header, so both queries
   * read such a file as one document.
   */
  lemma NoMarkerSingleSection(s: string)
    requires !Occurs(Marker, s)
    ensures |Sections(s)| == 1
  {
    forall i | 0 <= i <= |s| ensures HeaderLen(s[i..]) == 0 {
      if HeaderLen(s[i..]) != 0 {
        assert s[i..][..|Marker|] == s[i..i + |Marker|];
        assert Header[..|Marker|] == Marker;
        assert OccursAt(Marker, s, i);
      }
    }
    SingleSectionIffNoHeader(s);
  }

  /** A section of `get_all_faults`: `fault:` is put in front unless its stripped text starts with it. */
  function Prepared(section: string): string {
    if StartsWith(Strip(section), Prefix) then section else Prefix + section
  }

  /** After the preparation every section's stripped text starts with `fault:`. */
  lemma PreparedStartsWithFault(section: string)
    ensures StartsWith(Strip(Prepared(section)), Prefix)
  {
    if !StartsWith(Strip(section), Prefix) {
      var s := Prefix + section;
      assert s[0] == 'f';
      assert TrimStart(s) == s;
      var r := TrimEnd(s);
      assert s[5] == ':';
      TrimEndKeeps(s, 5);
      assert r[..|Prefix|] == s[..|Prefix|];
    }
  }

  // ---------------------------------------------------------------------
  // The file-name filter of `get_all_faults`
  // ---------------------------------------------------------------------

  /**
   * The characters with a meaning in a Python regular expression other than
   * `.` and `*`, which the filter rewrites; the filter leaves these live.
   */
  predicate RegexMeta(c: char) {
    c == '?' || c == '+' || c == '[' || c == ']' || c == '(' || c == ')' || c == '{' || c == '}'
    || c == '^' || c == '$' || c == '|' || c == '\\'
  }

  /** A pattern whose regular expression only uses the two rewritten characters. */
  predicate PlainPattern(p: string) {
    forall i | 0 <= i < |p| :: !RegexMeta(p[i])
  }

  /** The regular expression the filter builds from a pattern: `.` escaped, then `*` read as `.*`. */
  function FilterRegex(p: string): string {
    ReplaceAll(ReplaceAll(p, ".", "\\."), "*", ".*")
  }

  /**
   * `re.match(FilterRegex(pattern), name)`. For a plain pattern the
   * expression is literal characters, escaped dots and `.*`, which `Matches`
   * decides; any other expression is left to the regular-expression engine,
   * which may also reject it.
   */
  function PatternMatch(fs: FileSystem, p: string, f: string): Option<bool> {
    if PlainPattern(p) then Some(Matches(p, f)) else fs.reMatch(FilterRegex(p), f)
  }

  /**
   * Python's `re.match` of the regular expression built from a plain
   * pattern: `.` stands for itself, `*` for any run of characters other than
   * a newline, and the match only has to cover a prefix of the name.
   */
  function Matches(p: string, s: string): bool
    decreases |p|, |s|
  {
    if p == [] then true
    else if p[0] == '*' then Matches(p[1..], s) || (s != [] && s[0] != '\n' && Matches(p, s[1..]))
    else s != [] && s[0] == p[0] && Matches(p[1..], s[1..])
  }

  /** A plain pattern without `*` selects exactly the names that start with it. */
  lemma StarFreeIsPrefix(fs: FileSystem, p: string, s: string)
    requires '*' !in p && PlainPattern(p)
    ensures PatternMatch(fs, p, s) == Some(StartsWith(s, p))
  {
    StarFreeMatches(p, s);
  }

  lemma {:induction false} StarFreeMatches(p: string, s: string)
    requires '*' !in p
    ensures Matches(p, s) <==> StartsWith(s, p)
    decreases |p|
  {
    if p != [] {
      assert p[0] in p;
      if s != [] {
        StarFreeMatches(p[1..], s[1..]);
        if s[0] == p[0] {
          assert StartsWith(s[1..], p[1..]) <==> StartsWith(s, p) by {
            if |p| <= |s| {
              assert s[..|p|] == [s[0]] + s[1..][..|p| - 1];
              assert p == [p[0]] + p[1..];
            }
          }
        }
      }
    }
  }

  /**
   * The inner loop: the files of the listing that match one pattern and are
   * not yet chosen; an expression that does not compile raises at the first
   * name it is matched against.
   */
  function AddMatching(fs: FileSystem, chosen: seq<string>, pattern: string, files: seq<string>)
    : Result<seq<string>, ReaderError>
    decreases |files|
  {
    if files == [] then Success(chosen)
    else match AddMatching(fs, chosen, pattern, files[..|files| - 1])
      case Failure(e) => Failure(e)
      case Success(before) =>
        var f := files[|files| - 1];
        match PatternMatch(fs, pattern, f)
        case None => Failure(ReError)
        case Some(m) => Success(if m && f !in before then before + [f] else before)
  }

  /** Both loops: the patterns in order, and for each the listing in order. */
  function FilterPatterns(fs: FileSystem, patterns: seq<string>, files: seq<string>): Result<seq<string>, ReaderError>
    decreases |patterns|
  {
    if patterns == [] then Success([])
    else match FilterPatterns(fs, patterns[..|patterns| - 1], files)
      case Failure(e) => Failure(e)
      case Success(chosen) => AddMatching(fs, chosen, patterns[|patterns| - 1], files)
  }

  lemma {:induction false} AddMatchingFacts(fs: FileSystem, chosen: seq<string>, pattern: string, files: seq<string>, f: string)
    requires NoDuplicates(chosen)
    ensures AddMatching(fs, chosen, pattern, files).Failure? <==>
      exists i | 0 <= i < |files| :: PatternMatch(fs, pattern, files[i]).None?
    ensures AddMatching(fs, chosen, pattern, files).Failure? ==> AddMatching(fs, chosen, pattern, files).error == ReError
    ensures AddMatching(fs, chosen, pattern, files).Success? ==>
      && NoDuplicates(AddMatching(fs, chosen, pattern, files).value)
      && (f in AddMatching(fs, chosen, pattern, files).value <==>
            f in chosen || (f in files && PatternMatch(fs, pattern, f) == Some(true)))
    decreases |files|
  {
    if files != [] {
      var init := files[..|files| - 1];
      var last := files[|files| - 1];
      AddMatchingFacts(fs, chosen, pattern, init, f);
      AddMatchingFacts(fs, chosen, pattern, init, last);
      assert files == init + [last];
      if exists i | 0 <= i < |files| :: PatternMatch(fs, pattern, files[i]).None? {
        var i :| 0 <= i < |files| && PatternMatch(fs, pattern, files[i]).None?;
        if i < |init| {
          assert init[i] == files[i];
        }
      }
    }
  }

  /**
   * The filter raises exactly when some pattern's expression fails to
   * compile against some listed name; otherwise the filtered list holds no
   * name twice, and holds a name exactly when the listing has it and some
   * pattern matches it.
   */
  lemma {:induction false} FilterPatternsFacts(fs: FileSystem, patterns: seq<string>, files: seq<string>, f: string)
    ensures FilterPatterns(fs, patterns, files).Failure? <==>
      exists p, i | p in patterns && 0 <= i < |files| :: PatternMatch(fs, p, files[i]).None?
    ensures FilterPatterns(fs, patterns, files).Failure? ==> FilterPatterns(fs, patterns, files).error == ReError
    ensures FilterPatterns(fs, patterns, files).Success? ==>
      && NoDuplicates(FilterPatterns(fs, patterns, files).value)
      && (f in FilterPatterns(fs, patterns, files).value <==>
            f in files && exists p | p in patterns :: PatternMatch(fs, p, f) == Some(true))
    decreases |patterns|
  {
    if patterns != [] {
      var init := patterns[..|patterns| - 1];
      var last := patterns[|patterns| - 1];
      assert patterns == init + [last];
      FilterPatternsFacts(fs, init, files, f);
      if FilterPatterns(fs, init, files).Failure? {
        var p, i :| p in init && 0 <= i < |files| && PatternMatch(fs, p, files[i]).None?;
        assert p in patterns;
      } else {
        AddMatchingFacts(fs, FilterPatterns(fs, init, files).value, last, files, f);
        if FilterPatterns(fs, patterns, files).Failure? {
          var i :| 0 <= i < |files| && PatternMatch(fs, last, files[i]).None?;
          assert last in patterns;
        }
        if f in files && exists p | p in patterns :: PatternMatch(fs, p, f) == Some(true) {
          var p :| p in patterns && PatternMatch(fs, p, f) == Some(true);
          if p != last {
            assert p in init;
          }
        }
      }
      if exists p, i | p in patterns && 0 <= i < |files| :: PatternMatch(fs, p, files[i]).None? {
        var p, i :| p in patterns && 0 <= i < |files| && PatternMatch(fs, p, files[i]).None?;
        if p != last {
          assert p in init;
        }
      }
    }
  }

  /** The files the listing holds whose names end in `.yaml`, in listing order. */
  function YamlFiles(names: seq<string>): (r: seq<string>)
    ensures forall f | f in r :: f in names && EndsWith(f, Yaml)
    decreases |names|
  {
    if names == [] then []
    else
      var last := names[|names| - 1];
      YamlFiles(names[..|names| - 1]) + (if EndsWith(last, Yaml) then [last] else [])
  }

  /** With a non-empty filter list the filtered names, otherwise every `.yaml` name. */
  function FilesToProcess(fs: FileSystem, all: seq<string>, filters: Option<seq<string>>): Result<seq<string>, ReaderError> {
    if filters.Some? && filters.value != [] then FilterPatterns(fs, filters.value, all) else Success(all)
  }

  /**
   * The filter never brings in a name the listing lacks, nor a name twice,
   * and plain patterns never raise.
   */
  lemma FilesToProcessFacts(fs: FileSystem, all: seq<string>, filters: Option<seq<string>>, f: string)
    requires NoDuplicates(all)
    ensures (filters.Some? ==> forall p | p in filters.value :: PlainPattern(p)) ==> FilesToProcess(fs, all, filters).Success?
    ensures FilesToProcess(fs, all, filters).Success? ==>
      && NoDuplicates(FilesToProcess(fs, all, filters).value)
      && (f in FilesToProcess(fs, all, filters).value ==> f in all)
  {
    if filters.Some? && filters.value != [] {
      FilterPatternsFacts(fs, filters.value, all, f);
    }
  }

  // ---------------------------------------------------------------------
  // get_all_faults
  // ---------------------------------------------------------------------

  /** What one loaded document contributes: a tagged record, nothing, or an exception that ends the file. */
  datatype Step = Keep(doc: FaultDoc) | Skip | Abort

  /**
   * One document: parse errors, `None` and documents without a `fault` key
   * are passed over; a mapping with that key is tagged and kept; any other
   * truthy value that passes the key test, or makes it raise, raises a
   * TypeError that ends the file.
   */
  function CollectStep(l: Loaded, filename: string, number: int, subsystem: string): Step {
    match l
    case YamlError => Skip
    case Null => Skip
    case Mapping(e) =>
      if e.Missing? then Skip else Keep(FaultDoc(e, Some(filename), Some(number), Some(subsystem)))
    case Other(truthy, member) =>
      if !truthy || member == Some(false) then Skip else Abort
  }

  /** `f` applied to each element, in order. */
  function MapSeq<X, Y>(xs: seq<X>, f: X -> Y): (r: seq<Y>)
    ensures |r| == |xs|
    decreases |xs|
  {
    if xs == [] then [] else MapSeq(xs[..|xs| - 1], f) + [f(xs[|xs| - 1])]
  }

  lemma {:induction false} MapSeqAt<X, Y>(xs: seq<X>, f: X -> Y, i: int)
    requires 0 <= i < |xs|
    ensures MapSeq(xs, f)[i] == f(xs[i])
    decreases |xs|
  {
    if i < |xs| - 1 {
      MapSeqAt(xs[..|xs| - 1], f, i);
    }
  }

  function PreparedSections(sections: seq<string>): (r: seq<string>)
    ensures |r| == |sections|
  {
    MapSeq(sections, Prepared)
  }

  lemma PreparedSectionsAt(sections: seq<string>, i: int)
    requires 0 <= i < |sections|
    ensures PreparedSections(sections)[i] == Prepared(sections[i])
  {
    MapSeqAt(sections, Prepared, i);
  }

  /** The prepared sections after the first piece, numbered from 1. */
  function SectionSteps(fs: FileSystem, texts: seq<string>, filename: string, subsystem: string): (r: seq<Step>)
    ensures |r| == |texts|
    decreases |texts|
  {
    if texts == [] then []
    else
      SectionSteps(fs, texts[..|texts| - 1], filename, subsystem)
        + [CollectStep(fs.load(texts[|texts| - 1]), filename, |texts|, subsystem)]
  }

  lemma {:induction false} SectionStepsAt(fs: FileSystem, texts: seq<string>, filename: string, subsystem: string, i: int)
    requires 0 <= i < |texts|
    ensures SectionSteps(fs, texts, filename, subsystem)[i] == CollectStep(fs.load(texts[i]), filename, i + 1, subsystem)
    decreases |texts|
  {
    if i < |texts| - 1 {
      var init := texts[..|texts| - 1];
      assert init[i] == texts[i];
      SectionStepsAt(fs, init, filename, subsystem, i);
    }
  }

  /** Step i of a file's sections is the prepared text of section i, numbered i + 1. */
  lemma SectionStepAt(fs: FileSystem, sections: seq<string>, filename: string, subsystem: string, i: int, text: string)
    requires 0 <= i < |sections| && text == Prepared(sections[i])
    ensures SectionSteps(fs, PreparedSections(sections), filename, subsystem)[i] == CollectStep(fs.load(text), filename, i + 1, subsystem)
  {
    PreparedSectionsAt(sections, i);
    SectionStepsAt(fs, PreparedSections(sections), filename, subsystem, i);
  }

  /** A file that mentions `## Fault` is read section by section; any other file as one document numbered 1. */
  function FileSteps(fs: FileSystem, content: string, filename: string, subsystem: string): seq<Step> {
    if Occurs(Marker, content) then SectionSteps(fs, PreparedSections(Sections(content)[1..]), filename, subsystem)
    else [CollectStep(fs.load(content), filename, 1, subsystem)]
  }

  datatype Ran = Ran(docs: seq<FaultDoc>, aborted: bool)

  /** The steps in order: records are kept until the first exception. */
  function Run(steps: seq<Step>): Ran
    decreases |steps|
  {
    if steps == [] then Ran([], false)
    else
      var before := Run(steps[..|steps| - 1]);
      if before.aborted then before
      else match steps[|steps| - 1]
        case Keep(d) => Ran(before.docs + [d], false)
        case Skip => before
        case Abort => Ran(before.docs, true)
  }

  lemma {:induction false} RunAbortPersists(steps: seq<Step>, k: int)
    requires 0 <= k <= |steps|
    requires Run(steps[..k]).aborted
    ensures Run(steps) == Run(steps[..k])
    decreases |steps| - k
  {
    if k < |steps| {
      assert steps[..k + 1][..k] == steps[..k];
      RunAbortPersists(steps, k + 1);
    } else {
      assert steps[..k] == steps;
    }
  }

  /** One more step after a prefix that did not abort. */
  lemma RunExtend(steps: seq<Step>, i: int)
    requires 0 <= i < |steps| && !Run(steps[..i]).aborted
    ensures Run(steps[..i + 1]) ==
      match steps[i]
      case Keep(d) => Ran(Run(steps[..i]).docs + [d], false)
      case Skip => Run(steps[..i])
      case Abort => Ran(Run(steps[..i]).docs, true)
  {
    assert steps[..i + 1][..i] == steps[..i];
  }

  /** One more step after a run that has not aborted: a kept record is appended, an abort fixes the final records. */
  lemma RunStep(steps: seq<Step>, i: int, docs: seq<FaultDoc>, step: Step)
    requires 0 <= i < |steps| && Run(steps[..i]) == Ran(docs, false) && steps[i] == step
    ensures step.Keep? ==> Run(steps[..i + 1]) == Ran(docs + [step.doc], false)
    ensures step.Skip? ==> Run(steps[..i + 1]) == Ran(docs, false)
    ensures step.Abort? ==> Run(steps).docs == docs
  {
    RunExtend(steps, i);
    if step.Abort? {
      RunAbortPersists(steps, i + 1);
    }
  }

  lemma {:induction false} RunKeeps(steps: seq<Step>, d: FaultDoc)
    requires d in Run(steps).docs
    ensures Keep(d) in steps
    decreases |steps|
  {
    var init := steps[..|steps| - 1];
    if d in Run(init).docs {
      RunKeeps(init, d);
    }
  }

  /** What is kept is never lost by the steps that follow. */
  lemma {:induction false} RunGrows(steps: seq<Step>, m: int)
    requires 0 <= m <= |steps|
    ensures Run(steps[..m]).docs <= Run(steps).docs
    decreases |steps| - m
  {
    if m < |steps| {
      assert steps[..m + 1][..m] == steps[..m];
      RunGrows(steps, m + 1);
    } else {
      assert steps[..m] == steps;
    }
  }

  /** A record whose step comes before any exception is returned. */
  lemma {:induction false} RunKeepsBeforeAbort(steps: seq<Step>, k: int)
    requires 0 <= k < |steps| && steps[k].Keep?
    requires forall j | 0 <= j < k :: !steps[j].Abort?
    ensures steps[k].doc in Run(steps).docs
  {
    RunNoAbort(steps[..k]);
    assert steps[..k + 1][..k] == steps[..k];
    assert steps[..k + 1][k] == steps[k];
    assert steps[k].doc in Run(steps[..k + 1]).docs;
    RunGrows(steps, k + 1);
  }

  lemma {:induction false} RunNoAbort(steps: seq<Step>)
    requires forall j | 0 <= j < |steps| :: !steps[j].Abort?
    ensures !Run(steps).aborted
    decreases |steps|
  {
    if steps != [] {
      RunNoAbort(steps[..|steps| - 1]);
    }
  }

  /** The record of step k carries number k + 1. */
  predicate Numbered(steps: seq<Step>) {
    forall k | 0 <= k < |steps| && steps[k].Keep? :: steps[k].doc.faultNumber == Some(k + 1)
  }

  /** Every record has a number, and the numbers strictly increase along the list. */
  predicate NumbersIncrease(docs: seq<FaultDoc>) {
    && (forall i | 0 <= i < |docs| :: docs[i].faultNumber.Some?)
    && (forall i, j | 0 <= i < j < |docs| :: docs[i].faultNumber.value < docs[j].faultNumber.value)
  }

  /** Records come out in section order: their numbers are between 1 and the count and strictly increase. */
  lemma {:induction false} RunIncreasing(steps: seq<Step>)
    requires Numbered(steps)
    ensures forall d | d in Run(steps).docs :: d.faultNumber.Some? && 1 <= d.faultNumber.value <= |steps|
    ensures NumbersIncrease(Run(steps).docs)
    decreases |steps|
  {
    if steps != [] {
      var init := steps[..|steps| - 1];
      assert Numbered(init) by {
        forall k | 0 <= k < |init| && init[k].Keep? ensures init[k].doc.faultNumber == Some(k + 1) {
          assert init[k] == steps[k];
        }
      }
      RunIncreasing(init);
      var before := Run(init);
      var docs := Run(steps).docs;
      if !before.aborted && steps[|steps| - 1].Keep? {
        assert docs == before.docs + [steps[|steps| - 1].doc];
        assert steps[|steps| - 1].doc.faultNumber == Some(|steps|);
        forall i, j | 0 <= i < j < |docs| ensures docs[i].faultNumber.value < docs[j].faultNumber.value {
          assert docs[i] == before.docs[i];
          assert before.docs[i] in before.docs;
          if j < |before.docs| {
            assert docs[j] == before.docs[j];
            assert before.docs[i].faultNumber.value < before.docs[j].faultNumber.value;
          } else {
            assert docs[j] == steps[|steps| - 1].doc;
            assert before.docs[i].faultNumber.value <= |init|;
            assert docs[j].faultNumber.value == |steps|;
          }
        }
      } else {
        assert docs == before.docs;
        forall i, j | 0 <= i < j < |docs| ensures docs[i].faultNumber.value < docs[j].faultNumber.value {
          assert before.docs[i].faultNumber.value < before.docs[j].faultNumber.value;
        }
      }
    }
  }

  /**
   * Section numbering: the k-th section after the first piece, when it loads
   * as a mapping with a `fault` key and no earlier section raised, is returned
   * under number k + 1, whatever happened to the sections before it; and the
   * numbers of a file's records strictly increase.
   */
  lemma SectionNumbering(fs: FileSystem, texts: seq<string>, filename: string, subsystem: string, k: int)
    requires 0 <= k < |texts|
    requires fs.load(texts[k]).Mapping? && !fs.load(texts[k]).fault.Missing?
    requires forall j | 0 <= j < k :: !SectionSteps(fs, texts, filename, subsystem)[j].Abort?
    ensures FaultDoc(fs.load(texts[k]).fault, Some(filename), Some(k + 1), Some(subsystem))
      in Run(SectionSteps(fs, texts, filename, subsystem)).docs
    ensures NumbersIncrease(Run(SectionSteps(fs, texts, filename, subsystem)).docs)
  {
    var steps := SectionSteps(fs, texts, filename, subsystem);
    SectionStepsAt(fs, texts, filename, subsystem, k);
    RunKeepsBeforeAbort(steps, k);
    assert Numbered(steps) by {
      forall i | 0 <= i < |steps| && steps[i].Keep? ensures steps[i].doc.faultNumber == Some(i + 1) {
        SectionStepsAt(fs, texts, filename, subsystem, i);
      }
    }
    RunIncreasing(steps);
  }

  /** The records of one file; a file that cannot be read, or whose records raise, keeps what came before. */
  function FileFaults(fs: FileSystem, dir: string, filename: string, subsystem: string): seq<FaultDoc> {
    match fs.read(dir, filename)
    case None => []
    case Some(content) => Run(FileSteps(fs, content, filename, subsystem)).docs
  }

  function FilesFaults(fs: FileSystem, dir: string, files: seq<string>, subsystem: string): seq<FaultDoc>
    decreases |files|
  {
    if files == [] then []
    else FilesFaults(fs, dir, files[..|files| - 1], subsystem) + FileFaults(fs, dir, files[|files| - 1], subsystem)
  }

  /** One subsystem: no path, an empty path or a path that does not exist gives nothing; a failing listing raises. */
  function SubsystemFaults(paths: Dict<string, string>, fs: FileSystem, subsystem: string, filters: Option<seq<string>>)
    : Result<seq<FaultDoc>, ReaderError>
  {
    if subsystem !in paths.values || paths.values[subsystem] == "" || !fs.pathExists(paths.values[subsystem])
    then Success([])
    else match fs.listdir(paths.values[subsystem])
      case None => Failure(OsError)
      case Some(listing) =>
        match FilesToProcess(fs, YamlFiles(listing), filters)
        case Failure(e) => Failure(e)
        case Success(files) => Success(FilesFaults(fs, paths.values[subsystem], files, subsystem))
  }

  function Gathered(paths: Dict<string, string>, fs: FileSystem, subsystems: seq<string>, filters: Option<seq<string>>)
    : Result<seq<FaultDoc>, ReaderError>
    decreases |subsystems|
  {
    if subsystems == [] then Success([])
    else match Gathered(paths, fs, subsystems[..|subsystems| - 1], filters)
      case Failure(e) => Failure(e)
      case Success(rs) =>
        match SubsystemFaults(paths, fs, subsystems[|subsystems| - 1], filters)
        case Failure(e) => Failure(e)
        case Success(more) => Success(rs + more)
  }

  /** A non-empty subsystem name restricts the query to it; otherwise every configured subsystem in table order. */
  function Subsystems(paths: Dict<string, string>, subsystem: Option<string>): seq<string> {
    if subsystem.Some? && subsystem.value != "" then [subsystem.value] else paths.keys
  }

  function AllFaults(paths: Dict<string, string>, fs: FileSystem, subsystem: Option<string>, filters: Option<seq<string>>)
    : Result<seq<FaultDoc>, ReaderError>
  {
    Gathered(paths, fs, Subsystems(paths, subsystem), filters)
  }

  lemma {:induction false} GatheredFailurePersists(
    paths: Dict<string, string>, fs: FileSystem, subsystems: seq<string>, filters: Option<seq<string>>, k: int)
    requires 0 <= k <= |subsystems|
    requires Gathered(paths, fs, subsystems[..k], filters).Failure?
    ensures Gathered(paths, fs, subsystems, filters) == Gathered(paths, fs, subsystems[..k], filters)
    decreases |subsystems| - k
  {
    if k < |subsystems| {
      assert subsystems[..k + 1][..k] == subsystems[..k];
      GatheredFailurePersists(paths, fs, subsystems, filters, k + 1);
    } else {
      assert subsystems[..k] == subsystems;
    }
  }

  /** One more subsystem: a failure ends the whole query with that error, otherwise its records follow the earlier ones. */
  lemma GatherStep(paths: Dict<string, string>, fs: FileSystem, subsystems: seq<string>, filters: Option<seq<string>>,
                   i: int, results: seq<FaultDoc>, found: Result<seq<FaultDoc>, ReaderError>)
    requires 0 <= i < |subsystems|
    requires Gathered(paths, fs, subsystems[..i], filters) == Success(results)
    requires found == SubsystemFaults(paths, fs, subsystems[i], filters)
    ensures found.Success? ==> Gathered(paths, fs, subsystems[..i + 1], filters) == Success(results + found.value)
    ensures found.Failure? ==> Gathered(paths, fs, subsystems, filters) == Failure(found.error)
  {
    assert subsystems[..i + 1][..i] == subsystems[..i];
    if found.Failure? {
      GatheredFailurePersists(paths, fs, subsystems, filters, i + 1);
    }
  }

  /** The tags every returned record carries. */
  predicate Tagged(d: FaultDoc, filename: string, subsystem: string) {
    && !d.fault.Missing?
    && d.sourceFile == Some(filename)
    && d.subsystem == Some(subsystem)
    && d.faultNumber.Some? && d.faultNumber.value >= 1
  }

  lemma SectionStepsTagged(fs: FileSystem, texts: seq<string>, filename: string, subsystem: string, k: int)
    requires 0 <= k < |texts| && SectionSteps(fs, texts, filename, subsystem)[k].Keep?
    ensures Tagged(SectionSteps(fs, texts, filename, subsystem)[k].doc, filename, subsystem)
  {
    SectionStepsAt(fs, texts, filename, subsystem, k);
  }

  lemma FileFaultsTagged(fs: FileSystem, dir: string, filename: string, subsystem: string, d: FaultDoc)
    requires d in FileFaults(fs, dir, filename, subsystem)
    ensures Tagged(d, filename, subsystem)
  {
    var content := fs.read(dir, filename).value;
    var steps := FileSteps(fs, content, filename, subsystem);
    RunKeeps(steps, d);
    var k :| 0 <= k < |steps| && steps[k] == Keep(d);
    if Occurs(Marker, content) {
      var texts := PreparedSections(Sections(content)[1..]);
      assert steps == SectionSteps(fs, texts, filename, subsystem);
      SectionStepsTagged(fs, texts, filename, subsystem, k);
    } else {
      assert steps[k] == CollectStep(fs.load(content), filename, 1, subsystem);
    }
  }

  lemma {:induction false} FilesFaultsTagged(fs: FileSystem, dir: string, files: seq<string>, subsystem: string, d: FaultDoc)
    requires d in FilesFaults(fs, dir, files, subsystem)
    ensures d.sourceFile.Some? && d.sourceFile.value in files
    ensures Tagged(d, d.sourceFile.value, subsystem)
    decreases |files|
  {
    var init := files[..|files| - 1];
    if d in FilesFaults(fs, dir, init, subsystem) {
      FilesFaultsTagged(fs, dir, init, subsystem, d);
    } else {
      FileFaultsTagged(fs, dir, files[|files| - 1], subsystem, d);
    }
  }

  lemma SubsystemFaultsTagged(
    paths: Dict<string, string>, fs: FileSystem, subsystem: string, filters: Option<seq<string>>, d: FaultDoc)
    requires SubsystemFaults(paths, fs, subsystem, filters).Success?
    requires d in SubsystemFaults(paths, fs, subsystem, filters).value
    ensures subsystem in paths.values && paths.values[subsystem] != ""
    ensures d.sourceFile.Some? && EndsWith(d.sourceFile.value, Yaml)
    ensures Tagged(d, d.sourceFile.value, subsystem)
  {
    var dir := paths.values[subsystem];
    var all := YamlFiles(fs.listdir(dir).value);
    var files := FilesToProcess(fs, all, filters).value;
    FilesFaultsTagged(fs, dir, files, subsystem, d);
    if filters.Some? && filters.value != [] {
      FilterPatternsFacts(fs, filters.value, all, d.sourceFile.value);
    }
  }

  lemma {:induction false} GatheredTagged(
    paths: Dict<string, string>, fs: FileSystem, subsystems: seq<string>, filters: Option<seq<string>>, d: FaultDoc)
    requires Gathered(paths, fs, subsystems, filters).Success?
    requires d in Gathered(paths, fs, subsystems, filters).value
    ensures d.subsystem.Some? && d.subsystem.value in subsystems && d.subsystem.value in paths.values
    ensures d.sourceFile.Some? && EndsWith(d.sourceFile.value, Yaml)
    ensures Tagged(d, d.sourceFile.value, d.subsystem.value)
    decreases |subsystems|
  {
    var init := subsystems[..|subsystems| - 1];
    var last := subsystems[|subsystems| - 1];
    if d in Gathered(paths, fs, init, filters).value {
      GatheredTagged(paths, fs, init, filters, d);
    } else {
      SubsystemFaultsTagged(paths, fs, last, filters, d);
    }
  }

  /**
   * Every record `get_all_faults` returns has a `fault` key, comes from a
   * `.yaml` file of a configured subsystem, and carries its file name, a
   * fault number of at least 1 and its subsystem; a non-empty subsystem name
   * limits the records to that subsystem.
   */
  lemma AllFaultsTagged(
    paths: Dict<string, string>, fs: FileSystem, subsystem: Option<string>, filters: Option<seq<string>>, d: FaultDoc)
    requires AllFaults(paths, fs, subsystem, filters).Success?
    requires d in AllFaults(paths, fs, subsystem, filters).value
    ensures !d.fault.Missing?
    ensures d.sourceFile.Some? && EndsWith(d.sourceFile.value, Yaml)
    ensures d.faultNumber.Some? && d.faultNumber.value >= 1
    ensures d.subsystem.Some? && d.subsystem.value in paths.values
    ensures subsystem.Some? && subsystem.value != "" ==> d.subsystem == subsystem
  {
    GatheredTagged(paths, fs, Subsystems(paths, subsystem), filters, d);
  }

  // ---------------------------------------------------------------------
  // get_fault_tree
  // ---------------------------------------------------------------------

  /** What one document decides: the fault is found, the search goes on, or an exception leaves the query. */
  datatype TreeStep = Found(doc: FaultDoc) | Next | Raise(error: ReaderError)

  function NameCheck(body: FaultBody, faultName: string): TreeStep {
    if body.name == Some(faultName) then Found(FaultDoc(Entry(body), None, None, None)) else Next
  }

  /**
   * A file without headers, loaded whole: a parse error is passed over, but
   * `None` and other values make the key test or the `.get` raise.
   */
  function WholeFileStep(l: Loaded, faultName: string): TreeStep {
    match l
    case YamlError => Next
    case Null => Raise(TypeError)
    case Mapping(e) =>
      (match e
       case Missing => Next
       case NotMapping => Raise(AttributeError)
       case Entry(body) => NameCheck(body, faultName))
    case Other(_, member) =>
      if member == Some(false) then Next else Raise(TypeError)
  }

  /** One section, loaded with `fault:` in front: a falsy value is passed over before the key test. */
  function SectionStep(l: Loaded, faultName: string): TreeStep {
    match l
    case YamlError => Next
    case Null => Next
    case Mapping(e) =>
      (match e
       case Missing => Next
       case NotMapping => Raise(AttributeError)
       case Entry(body) => NameCheck(body, faultName))
    case Other(truthy, member) =>
      if !truthy || member == Some(false) then Next else Raise(TypeError)
  }

  /** The documents of one file in order; a file that cannot be read raises. */
  function TreeFileSteps(fs: FileSystem, dir: string, filename: string, faultName: string): seq<TreeStep> {
    match fs.read(dir, filename)
    case None => [Raise(OsError)]
    case Some(content) =>
      var sections := Sections(content);
      if |sections| <= 1 then [WholeFileStep(fs.load(content), faultName)]
      else SectionTreeSteps(fs, sections[1..], faultName)
  }

  function SectionTreeSteps(fs: FileSystem, sections: seq<string>, faultName: string): (r: seq<TreeStep>)
    ensures |r| == |sections|
  {
    seq(|sections|, i requires 0 <= i < |sections| => SectionStep(fs.load(Prefix + sections[i]), faultName))
  }

  function TreeSteps(fs: FileSystem, dir: string, files: seq<string>, faultName: string): seq<TreeStep>
    decreases |files|
  {
    if files == [] then []
    else TreeSteps(fs, dir, files[..|files| - 1], faultName) + TreeFileSteps(fs, dir, files[|files| - 1], faultName)
  }

  /** The first document that decides the search, or Next when every document lets it go on. */
  function FirstStep(steps: seq<TreeStep>): TreeStep
    decreases |steps|
  {
    if steps == [] then Next
    else if steps[0].Next? then FirstStep(steps[1..])
    else steps[0]
  }

  /** Next exactly when every document lets the search go on; otherwise a step all of whose predecessors did. */
  lemma {:induction false} FirstStepSpec(steps: seq<TreeStep>)
    ensures FirstStep(steps).Next? <==> forall j | 0 <= j < |steps| :: steps[j].Next?
    ensures !FirstStep(steps).Next? ==>
      exists k | 0 <= k < |steps| :: steps[k] == FirstStep(steps) && forall j | 0 <= j < k :: steps[j].Next?
    decreases |steps|
  {
    if steps != [] && steps[0].Next? {
      var rest := steps[1..];
      FirstStepSpec(rest);
      assert forall j | 1 <= j < |steps| :: steps[j] == rest[j - 1];
      if !FirstStep(rest).Next? {
        var k :| 0 <= k < |rest| && rest[k] == FirstStep(rest) && forall j | 0 <= j < k :: rest[j].Next?;
        assert steps[k + 1] == FirstStep(steps);
        assert forall j | 0 <= j < k + 1 :: steps[j].Next?;
      }
    }
  }

  lemma {:induction false} FirstStepAt(steps: seq<TreeStep>, k: int)
    requires 0 <= k < |steps| && !steps[k].Next?
    requires forall j | 0 <= j < k :: steps[j].Next?
    ensures FirstStep(steps) == steps[k]
    decreases k
  {
    if k > 0 {
      FirstStepAt(steps[1..], k - 1);
    }
  }

  lemma {:induction false} FirstStepConcat(a: seq<TreeStep>, b: seq<TreeStep>)
    ensures FirstStep(a + b) == if FirstStep(a).Next? then FirstStep(b) else FirstStep(a)
    decreases |a|
  {
    if a == [] {
      assert a + b == b;
    } else {
      assert (a + b)[0] == a[0];
      if a[0].Next? {
        assert (a + b)[1..] == a[1..] + b;
        FirstStepConcat(a[1..], b);
      }
    }
  }

  function Outcome(step: TreeStep): Result<Option<FaultDoc>, ReaderError> {
    match step
    case Found(d) => Success(Some(d))
    case Next => Success(None)
    case Raise(e) => Failure(e)
  }

  /** `get_fault_tree`: no path or an empty path gives None; otherwise the first deciding document of the `.yaml` files in listing order. */
  function FaultTree(paths: Dict<string, string>, fs: FileSystem, subsystem: string, faultName: string)
    : Result<Option<FaultDoc>, ReaderError>
  {
    if subsystem !in paths.values || paths.values[subsystem] == "" then Success(None)
    else match fs.listdir(paths.values[subsystem])
      case None => Failure(OsError)
      case Some(listing) =>
        Outcome(FirstStep(TreeSteps(fs, paths.values[subsystem], YamlFiles(listing), faultName)))
  }

  /** A document that ends the search successfully is an untagged `fault` mapping with the name asked for. */
  predicate NamedIfFound(step: TreeStep, faultName: string) {
    step.Found? ==>
      && step.doc.fault.Entry? && step.doc.fault.body.name == Some(faultName)
      && step.doc.sourceFile.None? && step.doc.faultNumber.None? && step.doc.subsystem.None?
  }

  lemma SectionTreeStepsNamed(fs: FileSystem, sections: seq<string>, faultName: string, k: int)
    requires 0 <= k < |sections|
    ensures NamedIfFound(SectionTreeSteps(fs, sections, faultName)[k], faultName)
  {
    var l := fs.load(Prefix + sections[k]);
    assert SectionTreeSteps(fs, sections, faultName)[k] == SectionStep(l, faultName);
    if l.Mapping? && l.fault.Entry? {
      assert SectionStep(l, faultName) == NameCheck(l.fault.body, faultName);
    }
  }

  lemma TreeFileStepsNamed(fs: FileSystem, dir: string, filename: string, faultName: string, k: int)
    requires 0 <= k < |TreeFileSteps(fs, dir, filename, faultName)|
    ensures NamedIfFound(TreeFileSteps(fs, dir, filename, faultName)[k], faultName)
  {
    if fs.read(dir, filename).Some? {
      var sections := Sections(fs.read(dir, filename).value);
      if |sections| > 1 {
        assert TreeFileSteps(fs, dir, filename, faultName) == SectionTreeSteps(fs, sections[1..], faultName);
        SectionTreeStepsNamed(fs, sections[1..], faultName, k);
      }
    }
  }

  lemma {:induction false} TreeStepsNamed(fs: FileSystem, dir: string, files: seq<string>, faultName: string, k: int)
    requires 0 <= k < |TreeSteps(fs, dir, files, faultName)|
    ensures NamedIfFound(TreeSteps(fs, dir, files, faultName)[k], faultName)
    decreases |files|
  {
    var init := files[..|files| - 1];
    var before := TreeSteps(fs, dir, init, faultName);
    var last := TreeFileSteps(fs, dir, files[|files| - 1], faultName);
    assert TreeSteps(fs, dir, files, faultName) == before + last;
    if k < |before| {
      TreeStepsNamed(fs, dir, init, faultName, k);
    } else {
      TreeFileStepsNamed(fs, dir, files[|files| - 1], faultName, k - |before|);
    }
  }

  lemma FirstStepNamed(steps: seq<TreeStep>, fs: FileSystem, dir: string, files: seq<string>, faultName: string)
    requires steps == TreeSteps(fs, dir, files, faultName)
    ensures NamedIfFound(FirstStep(steps), faultName)
  {
    FirstStepSpec(steps);
    if FirstStep(steps).Found? {
      var k :| 0 <= k < |steps| && steps[k] == FirstStep(steps) && forall j | 0 <= j < k :: steps[j].Next?;
      TreeStepsNamed(fs, dir, files, faultName, k);
    }
  }

  /**
   * A fault `get_fault_tree` returns is the untagged document of a `fault`
   * mapping whose `name` is the one asked for, from a configured subsystem
   * whose directory could be listed.
   */
  lemma FaultTreeFound(paths: Dict<string, string>, fs: FileSystem, subsystem: string, faultName: string, d: FaultDoc)
    requires FaultTree(paths, fs, subsystem, faultName) == Success(Some(d))
    ensures subsystem in paths.values && fs.listdir(paths.values[subsystem]).Some?
    ensures d.fault.Entry? && d.fault.body.name == Some(faultName)
    ensures d.sourceFile.None? && d.faultNumber.None? && d.subsystem.None?
  {
    var dir := paths.values[subsystem];
    var files := YamlFiles(fs.listdir(dir).value);
    var steps := TreeSteps(fs, dir, files, faultName);
    assert Outcome(FirstStep(steps)) == Success(Some(d));
    FirstStepNamed(steps, fs, dir, files, faultName);
  }

  /**
   * With a configured subsystem whose directory can be listed,
   * `get_fault_tree` returns None exactly when every document of every
   * `.yaml` file lets the search go on.
   */
  lemma FaultTreeNone(paths: Dict<string, string>, fs: FileSystem, subsystem: string, faultName: string)
    requires subsystem in paths.values && paths.values[subsystem] != ""
    requires fs.listdir(paths.values[subsystem]).Some?
    ensures var steps := TreeSteps(fs, paths.values[subsystem], YamlFiles(fs.listdir(paths.values[subsystem]).value), faultName);
      FaultTree(paths, fs, subsystem, faultName) == Success(None) <==> forall j | 0 <= j < |steps| :: steps[j].Next?
  {
    var steps := TreeSteps(fs, paths.values[subsystem], YamlFiles(fs.listdir(paths.values[subsystem]).value), faultName);
    FirstStepSpec(steps);
  }

  // ---------------------------------------------------------------------
  // The reader
  // ---------------------------------------------------------------------

  /** Puts `fault:` in front of a section unless its stripped text already starts with it. */
  method PrepareSection(section: string) returns (text: string)
    ensures text == Prepared(section)
  {
    text := section;
    if !StartsWith(Strip(section), Prefix) {
      text := Prefix + section;
    }
  }

  /** The body of the section loop for a prepared section: load it and decide what it contributes. */
  method LoadSection(fs: FileSystem, text: string, filename: string, number: int, subsystem: string)
    returns (step: Step)
    ensures step == CollectStep(fs.load(text), filename, number, subsystem)
  {
    var data := fs.load(text);
    match data {
      case Mapping(e) =>
        if !e.Missing? {
          return Keep(FaultDoc(e, Some(filename), Some(number), Some(subsystem)));
        }
      case Other(truthy, member) =>
        if truthy && member != Some(false) {
          return Abort;
        }
      case YamlError =>
      case Null =>
    }
    return Skip;
  }

  /** The section loop of `get_all_faults` for one file, numbering from 1, ended by the first exception. */
  method CollectSections(fs: FileSystem, sections: seq<string>, filename: string, subsystem: string)
    returns (docs: seq<FaultDoc>)
    ensures docs == Run(SectionSteps(fs, PreparedSections(sections), filename, subsystem)).docs
  {
    ghost var steps := SectionSteps(fs, PreparedSections(sections), filename, subsystem);
    docs := [];
    var i := 0;
    while i < |sections|
      invariant 0 <= i <= |sections|
      invariant Run(steps[..i]) == Ran(docs, false)
    {
      var text := PrepareSection(sections[i]);
      var step := LoadSection(fs, text, filename, i + 1, subsystem);
      SectionStepAt(fs, sections, filename, subsystem, i, text);
      RunStep(steps, i, docs, step);
      match step {
        case Keep(d) =>
          docs := docs + [d];
        case Abort =>
          return;
        case Skip =>
      }
      i := i + 1;
    }
    assert steps[..i] == steps;
  }

  /** Reads one file of `get_all_faults`: its records, or nothing when it cannot be read. */
  method CollectFile(fs: FileSystem, dir: string, filename: string, subsystem: string) returns (docs: seq<FaultDoc>)
    ensures docs == FileFaults(fs, dir, filename, subsystem)
  {
    var read := fs.read(dir, filename);
    if read.None? {
      return [];
    }
    var content := read.value;
    if Occurs(Marker, content) {
      docs := CollectSections(fs, Sections(content)[1..], filename, subsystem);
      assert FileSteps(fs, content, filename, subsystem)
          == SectionSteps(fs, PreparedSections(Sections(content)[1..]), filename, subsystem);
    } else {
      var data := fs.load(content);
      ghost var steps := FileSteps(fs, content, filename, subsystem);
      assert steps == [CollectStep(data, filename, 1, subsystem)];
      assert steps[..0] == [];
      docs := [];
      if data.Mapping? && !data.fault.Missing? {
        docs := [FaultDoc(data.fault, Some(filename), Some(1), Some(subsystem))];
      }
      assert docs == Run(steps).docs;
    }
    assert FileFaults(fs, dir, filename, subsystem) == Run(FileSteps(fs, content, filename, subsystem)).docs;
  }

  /** The two loops of the file filter; `re.error` leaves both loops. */
  method FilterFiles(fs: FileSystem, allFiles: seq<string>, patterns: seq<string>)
    returns (r: Result<seq<string>, ReaderError>)
    ensures r == FilterPatterns(fs, patterns, allFiles)
  {
    var filtered := [];
    var i := 0;
    while i < |patterns|
      invariant 0 <= i <= |patterns|
      invariant FilterPatterns(fs, patterns[..i], allFiles) == Success(filtered)
    {
      var pattern := patterns[i];
      ghost var start := filtered;
      var j := 0;
      while j < |allFiles|
        invariant 0 <= j <= |allFiles|
        invariant AddMatching(fs, start, pattern, allFiles[..j]) == Success(filtered)
        invariant FilterPatterns(fs, patterns[..i], allFiles) == Success(start)
      {
        var file := allFiles[j];
        assert allFiles[..j + 1][..j] == allFiles[..j];
        var matched := PatternMatch(fs, pattern, file);
        if matched.None? {
          AddMatchingFailurePersists(fs, start, pattern, allFiles, j + 1);
          assert patterns[..i + 1][..i] == patterns[..i];
          FilterPatternsFailurePersists(fs, patterns, allFiles, i + 1);
          return Failure(ReError);
        }
        if matched.value && file !in filtered {
          filtered := filtered + [file];
        }
        j := j + 1;
      }
      assert allFiles[..j] == allFiles;
      assert patterns[..i + 1][..i] == patterns[..i];
      i := i + 1;
    }
    assert patterns[..i] == patterns;
    r := Success(filtered);
  }

  lemma {:induction false} AddMatchingFailurePersists(fs: FileSystem, chosen: seq<string>, pattern: string, files: seq<string>, n: int)
    requires 0 <= n <= |files| && AddMatching(fs, chosen, pattern, files[..n]).Failure?
    ensures AddMatching(fs, chosen, pattern, files) == AddMatching(fs, chosen, pattern, files[..n])
    decreases |files| - n
  {
    if n < |files| {
      assert files[..n + 1][..n] == files[..n];
      AddMatchingFailurePersists(fs, chosen, pattern, files, n + 1);
    } else {
      assert files[..n] == files;
    }
  }

  lemma {:induction false} FilterPatternsFailurePersists(fs: FileSystem, patterns: seq<string>, files: seq<string>, n: int)
    requires 0 <= n <= |patterns| && FilterPatterns(fs, patterns[..n], files).Failure?
    ensures FilterPatterns(fs, patterns, files) == FilterPatterns(fs, patterns[..n], files)
    decreases |patterns| - n
  {
    if n < |patterns| {
      assert patterns[..n + 1][..n] == patterns[..n];
      FilterPatternsFailurePersists(fs, patterns, files, n + 1);
    } else {
      assert patterns[..n] == patterns;
    }
  }

  /** One subsystem of `get_all_faults`. */
  method CollectSubsystem(paths: Dict<string, string>, fs: FileSystem, subsystem: string, filters: Option<seq<string>>)
    returns (r: Result<seq<FaultDoc>, ReaderError>)
    ensures r == SubsystemFaults(paths, fs, subsystem, filters)
  {
    if subsystem !in paths.values || paths.values[subsystem] == "" || !fs.pathExists(paths.values[subsystem]) {
      return Success([]);
    }
    var basePath := paths.values[subsystem];
    var listing := fs.listdir(basePath);
    if listing.None? {
      return Failure(OsError);
    }
    var allFiles := YamlFiles(listing.value);
    var files := allFiles;
    if filters.Some? && filters.value != [] {
      var filtered := FilterFiles(fs, allFiles, filters.value);
      if filtered.Failure? {
        return Failure(filtered.error);
      }
      files := filtered.value;
    }
    var results := CollectFiles(fs, basePath, files, subsystem);
    return Success(results);
  }

  /** The file loop of `get_all_faults` for one subsystem. */
  method CollectFiles(fs: FileSystem, dir: string, files: seq<string>, subsystem: string) returns (results: seq<FaultDoc>)
    ensures results == FilesFaults(fs, dir, files, subsystem)
  {
    results := [];
    var i := 0;
    while i < |files|
      invariant 0 <= i <= |files|
      invariant results == FilesFaults(fs, dir, files[..i], subsystem)
    {
      var docs := CollectFile(fs, dir, files[i], subsystem);
      assert files[..i + 1][..i] == files[..i];
      results := results + docs;
      i := i + 1;
    }
    assert files[..i] == files;
  }

  /** Looks one file up for `get_fault_tree`: its first deciding document, or Next. */
  method LookupFile(fs: FileSystem, dir: string, filename: string, faultName: string) returns (step: TreeStep)
    ensures step == FirstStep(TreeFileSteps(fs, dir, filename, faultName))
  {
    var read := fs.read(dir, filename);
    if read.None? {
      return Raise(OsError);
    }
    var content := read.value;
    var sections := Sections(content);
    if |sections| <= 1 {
      return WholeFileStep(fs.load(content), faultName);
    }
    ghost var steps := TreeFileSteps(fs, dir, filename, faultName);
    var i := 1;
    while i < |sections|
      invariant 1 <= i <= |sections|
      invariant forall j | 0 <= j < i - 1 :: steps[j].Next?
    {
      step := SectionStep(fs.load(Prefix + sections[i]), faultName);
      if !step.Next? {
        FirstStepAt(steps, i - 1);
        return;
      }
      i := i + 1;
    }
    FirstStepSpec(steps);
    return Next;
  }

  /** One more name of the listing: a `.yaml` name reached while the search still goes on adds its file's first deciding document. */
  lemma ScanExtend(fs: FileSystem, dir: string, names: seq<string>, i: int, faultName: string)
    requires 0 <= i < |names|
    ensures FirstStep(TreeSteps(fs, dir, YamlFiles(names[..i + 1]), faultName)) ==
      if EndsWith(names[i], Yaml) && FirstStep(TreeSteps(fs, dir, YamlFiles(names[..i]), faultName)).Next?
      then FirstStep(TreeFileSteps(fs, dir, names[i], faultName))
      else FirstStep(TreeSteps(fs, dir, YamlFiles(names[..i]), faultName))
  {
    var before := YamlFiles(names[..i]);
    assert names[..i + 1][..i] == names[..i];
    if EndsWith(names[i], Yaml) {
      assert YamlFiles(names[..i + 1]) == before + [names[i]];
      assert (before + [names[i]])[..|before|] == before;
      assert TreeSteps(fs, dir, before + [names[i]], faultName) == TreeSteps(fs, dir, before, faultName) + TreeFileSteps(fs, dir, names[i], faultName);
      FirstStepConcat(TreeSteps(fs, dir, before, faultName), TreeFileSteps(fs, dir, names[i], faultName));
    } else {
      assert YamlFiles(names[..i + 1]) == before;
    }
  }

  /** The state of the listing loop of `get_fault_tree` after the names `names`, examined in order. */
  function Scanned(fs: FileSystem, dir: string, names: seq<string>, faultName: string): TreeStep
    decreases |names|
  {
    if names == [] then Next
    else
      var before := Scanned(fs, dir, names[..|names| - 1], faultName);
      var name := names[|names| - 1];
      if before.Next? && EndsWith(name, Yaml) then FirstStep(TreeFileSteps(fs, dir, name, faultName)) else before
  }

  /** The loop finds the first deciding document over the directory's `.yaml` files in listing order. */
  lemma {:induction false} ScannedIsFirstStep(fs: FileSystem, dir: string, names: seq<string>, faultName: string)
    ensures Scanned(fs, dir, names, faultName) == FirstStep(TreeSteps(fs, dir, YamlFiles(names), faultName))
    decreases |names|
  {
    if names != [] {
      var n := |names| - 1;
      ScannedIsFirstStep(fs, dir, names[..n], faultName);
      ScanExtend(fs, dir, names, n, faultName);
      assert names[..n + 1] == names;
    }
  }

  /** Once a prefix of the listing has decided the search, the rest of the listing is never consulted. */
  lemma {:induction false} ScannedDecided(fs: FileSystem, dir: string, names: seq<string>, k: int, faultName: string)
    requires 0 <= k <= |names| && !Scanned(fs, dir, names[..k], faultName).Next?
    ensures Scanned(fs, dir, names, faultName) == Scanned(fs, dir, names[..k], faultName)
    decreases |names| - k
  {
    if k == |names| {
      assert names[..k] == names;
    } else {
      assert names[..k + 1][..k] == names[..k];
      ScannedDecided(fs, dir, names, k + 1, faultName);
    }
  }

  /** One name of the listing examined while the search still goes on: either it decides the whole listing or the search goes on past it. */
  lemma ScanName(fs: FileSystem, dir: string, names: seq<string>, i: int, faultName: string, step: TreeStep)
    requires 0 <= i < |names| && Scanned(fs, dir, names[..i], faultName).Next?
    requires step == if EndsWith(names[i], Yaml) then FirstStep(TreeFileSteps(fs, dir, names[i], faultName)) else Next
    ensures step.Next? ==> Scanned(fs, dir, names[..i + 1], faultName).Next?
    ensures !step.Next? ==> Scanned(fs, dir, names, faultName) == step
  {
    assert names[..i + 1][..i] == names[..i];
    if !step.Next? {
      ScannedDecided(fs, dir, names, i + 1, faultName);
    }
  }

  /** The listing loop of `get_fault_tree`. */
  method LookupFiles(fs: FileSystem, dir: string, names: seq<string>, faultName: string) returns (r: TreeStep)
    ensures r == Scanned(fs, dir, names, faultName)
  {
    var i := 0;
    while i < |names|
      invariant 0 <= i <= |names|
      invariant Scanned(fs, dir, names[..i], faultName).Next?
    {
      var step := Next;
      if EndsWith(names[i], Yaml) {
        step := LookupFile(fs, dir, names[i], faultName);
      }
      ScanName(fs, dir, names, i, faultName, step);
      if !step.Next? {
        return step;
      }
      i := i + 1;
    }
    assert names[..i] == names;
    return Next;
  }

  class YamlReader {
    /** The subsystem-to-directory table. */
    var yamlPaths: Dict<string, string>

    predicate Valid()
      reads this
    {
      yamlPaths.Valid()
    }

    /** Starts from an empty table and loads the rows the database query returns. */
    constructor(rows: seq<PathRow>)
      ensures Valid()
      ensures yamlPaths == LoadPaths(Empty(), rows)
    {
      yamlPaths := Empty();
      new;
      LoadPathsFromDb(rows);
    }

    method LoadPathsFromDb(rows: seq<PathRow>)
      requires Valid()
      modifies this
      ensures Valid()
      ensures yamlPaths == LoadPaths(old(yamlPaths), rows)
    {
      ghost var start := yamlPaths;
      var i := 0;
      while i < |rows|
        invariant 0 <= i <= |rows|
        invariant start.Valid()
        invariant yamlPaths == LoadPaths(start, rows[..i])
      {
        var row := rows[i];
        assert rows[..i + 1][..i] == rows[..i];
        yamlPaths := yamlPaths.Put(row.subsystem, row.path);
        i := i + 1;
      }
      assert rows[..i] == rows;
    }

    method GetAllFaults(fs: FileSystem, subsystem: Option<string>, fileFilters: Option<seq<string>>)
      returns (r: Result<seq<FaultDoc>, ReaderError>)
      requires Valid()
      ensures r == AllFaults(yamlPaths, fs, subsystem, fileFilters)
    {
      var subsystems := if subsystem.Some? && subsystem.value != "" then [subsystem.value] else yamlPaths.keys;
      var results := [];
      var i := 0;
      while i < |subsystems|
        invariant 0 <= i <= |subsystems|
        invariant Gathered(yamlPaths, fs, subsystems[..i], fileFilters) == Success(results)
      {
        var found := CollectSubsystem(yamlPaths, fs, subsystems[i], fileFilters);
        GatherStep(yamlPaths, fs, subsystems, fileFilters, i, results, found);
        if found.Failure? {
          return Failure(found.error);
        }
        results := results + found.value;
        i := i + 1;
      }
      assert subsystems[..i] == subsystems;
      return Success(results);
    }

    method GetFaultTree(fs: FileSystem, subsystem: string, faultName: string)
      returns (r: Result<Option<FaultDoc>, ReaderError>)
      requires Valid()
      ensures r == FaultTree(yamlPaths, fs, subsystem, faultName)
    {
      if subsystem !in yamlPaths.values || yamlPaths.values[subsystem] == "" {
        return Success(None);
      }
      var basePath := yamlPaths.values[subsystem];
      var listing := fs.listdir(basePath);
      if listing.None? {
        return Failure(OsError);
      }
      var step := LookupFiles(fs, basePath, listing.value, faultName);
      ScannedIsFirstStep(fs, basePath, listing.value, faultName);
      return Outcome(step);
    }
  }
}
