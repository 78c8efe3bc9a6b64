/**
 * The GitHub searcher: code-search hits over the archived CSV files are turned
 * into result rows. For each text match the CSV line holding it is cut out of
 * the file and read under the CSV header, rows whose text the full-text
 * matcher rejects are skipped, the channel and date-time come from the file's
 * path, and at most 500 rows are kept.
 */
module GithubSearch {
  import opened Wrappers
  import opened PyStr
  import opened Dedupe
  import opened SearchBase

  /** `_MAX_RESULTS`. */
  const MaxResults: nat := 500

  /** The first line of every archived CSV file. */
  const Header: string := "feed,title,long_url,short_url\n"

  /** The header without its line break, which is what `content[: content.find("\n")]` gives. */
  const HeaderLine: string := "feed,title,long_url,short_url"

  /** The failed assertions and exceptions that end a search. */
  datatype SearchError =
    | ContentWithoutHeader   // the file does not start with the header
    | FragmentNotFound       // a text-match fragment does not occur in the file
    | UnreadableLine         // `pd.read_csv` cannot read the cut-out line
    | NoChannel              // the path has no first component
    | BadDateTime            // the rest of the path is not `%Y/%m%d/%H%M%S.csv`

  /** A match inside a fragment: `match["indices"]`. */
  datatype MatchSpan = MatchSpan(start: int, end: int)

  /** One of a hit's `text_matches`: a fragment of the file and the matches in it. */
  datatype TextMatch = TextMatch(fragment: string, matches: seq<MatchSpan>)

  /** One code-search hit: the decoded file content, its path and its text matches. */
  datatype CodeHit = CodeHit(content: string, path: string, textMatches: seq<TextMatch>)

  /** The four CSV columns of a line, as `pd.read_csv` reads them. */
  datatype CsvRow = CsvRow(feed: string, title: string, longUrl: string, shortUrl: string)

  /**
   * The foreign code `_search` calls: reading a one-line CSV (None when pandas
   * raises), and the full-text matcher built from the query.
   */
  datatype SearchTools = SearchTools(readCsv: string -> Option<CsvRow>, isMatch: string -> bool)

  // ------------------------------------------------------------------------
  // Cutting out the line that holds a match

  /** `content[: m0].rfind("\n")`. */
  function LineStart(content: string, m0: int): int {
    RFindChar(Slice(content, 0, m0), '\n')
  }

  /** `m1 + content[m1:].find("\n")`. */
  function LineEnd(content: string, m1: int): int {
    m1 + Find(Slice(content, m1, |content|), "\n")
  }

  /** `line_csv`: the header line followed by the slice of the file around the match. */
  function LineCsv(content: string, fragmentIndex: int, span: MatchSpan): string {
    LineCsvAt(content, fragmentIndex + span.start, fragmentIndex + span.end)
  }

  /** The header line followed by the lines around the content positions `m0` to `m1`. */
  function LineCsvAt(content: string, m0: int, m1: int): string {
    Slice(content, 0, Find(content, "\n")) + Slice(content, LineStart(content, m0), LineEnd(content, m1))
  }

  /** The match indices in the content are the fragment's position plus the indices in the fragment. */
  lemma MatchInContent(content: string, fragment: string, span: MatchSpan)
    requires Find(content, fragment) != -1
    requires 0 <= span.start <= span.end <= |fragment|
    ensures var fi := Find(content, fragment);
      0 <= fi + span.start <= fi + span.end <= |content|
      && content[fi + span.start..fi + span.end] == fragment[span.start..span.end]
  {
    var fi := Find(content, fragment);
    assert content[fi..fi + |fragment|] == fragment;
    forall k | 0 <= k < span.end - span.start
      ensures content[fi + span.start..fi + span.end][k] == fragment[span.start..span.end][k]
    {
      assert content[fi..fi + |fragment|][span.start + k] == content[fi + span.start + k];
    }
  }

  lemma HeaderLineOf(content: string)
    requires StartsWith(content, Header)
    ensures Slice(content, 0, Find(content, "\n")) == HeaderLine
  {
    assert content[..|Header|] == Header;
    assert OccursAt(content, "\n", |HeaderLine|) by {
      assert content[|HeaderLine|] == Header[|HeaderLine|];
    }
    forall k | 0 <= k < |HeaderLine| ensures !OccursAt(content, "\n", k) {
      assert content[k] == Header[k];
      assert content[k..k + 1][0] == content[k];
    }
    assert content[..|HeaderLine|] == Header[..|HeaderLine|];
  }

  /** The line start found for a match after the header is the last line break before the match. */
  lemma LineStartSpec(content: string, m0: int)
    requires StartsWith(content, Header)
    requires |Header| <= m0 <= |content|
    ensures var a := LineStart(content, m0);
      && |HeaderLine| <= a < m0
      && content[a] == '\n'
      && (forall k :: a < k < m0 ==> content[k] != '\n')
  {
    var pre := Slice(content, 0, m0);
    assert pre == content[..m0];
    assert pre[|HeaderLine|] == '\n' by {
      assert content[..|Header|] == Header;
      assert content[|HeaderLine|] == Header[|HeaderLine|];
    }
    assert forall k :: 0 <= k < m0 ==> content[k] == pre[k];
  }

  /** The line end found for a match is the first line break at or after its end, when there is one. */
  lemma LineEndSpec(content: string, m1: int)
    requires 0 <= m1 <= |content|
    requires '\n' in content[m1..]
    ensures var b := LineEnd(content, m1);
      && m1 <= b < |content|
      && content[b] == '\n'
      && (forall k :: m1 <= k < b ==> content[k] != '\n')
  {
    var post := Slice(content, m1, |content|);
    assert post == content[m1..];
    var f := Find(post, "\n");
    assert f != -1 by {
      var k :| 0 <= k < |post| && post[k] == '\n';
      assert post[k..k + 1] == "\n";
      assert OccursAt(post, "\n", k);
    }
    assert post[f..f + 1] == "\n";
    forall k | m1 <= k < m1 + f ensures content[k] != '\n' {
      assert !OccursAt(post, "\n", k - m1);
      assert post[k - m1..k - m1 + 1] == [post[k - m1]];
      assert content[k] == post[k - m1];
    }
  }

  /**
   * When the match (content positions `m0` to `m1`) lies on one line after the
   * header and that line ends with a line break, `line_csv` is the header line
   * followed by a line break and the whole line holding the match, and nothing else.
   */
  lemma LineCsvShape(content: string, m0: int, m1: int)
    requires StartsWith(content, Header)
    requires |Header| <= m0 <= m1 <= |content|
    requires forall k :: m0 <= k < m1 ==> content[k] != '\n'
    requires '\n' in content[m1..]
    ensures var a, b := LineStart(content, m0), LineEnd(content, m1);
      && |HeaderLine| <= a < m0
      && m1 <= b < |content|
      && content[a] == '\n' && content[b] == '\n'
      && (forall k :: a < k < b ==> content[k] != '\n')
      && LineCsvAt(content, m0, m1) == HeaderLine + content[a..b]
  {
    HeaderLineOf(content);
    LineStartSpec(content, m0);
    LineEndSpec(content, m1);
    var a, b := LineStart(content, m0), LineEnd(content, m1);
    NoBreakBetween(content, a, m0, m1, b);
  }

  lemma NoBreakBetween(content: string, a: int, m0: int, m1: int, b: int)
    requires 0 <= a < m0 <= m1 <= b < |content|
    requires forall k :: a < k < m0 ==> content[k] != '\n'
    requires forall k :: m0 <= k < m1 ==> content[k] != '\n'
    requires forall k :: m1 <= k < b ==> content[k] != '\n'
    ensures forall k :: a < k < b ==> content[k] != '\n'
  {
    forall k | a < k < b ensures content[k] != '\n' {
      if k < m0 {
      } else if k < m1 {
      } else {
      }
    }
  }

  // ------------------------------------------------------------------------
  // The path of an archived file: `<channel>/<%Y>/<%m%d>/<%H%M%S>.csv`

  /** `Path(path).parts` for a relative path: the `/`-separated components, without empty and `.` ones. */
  function PathParts(path: string): (r: seq<string>)
    ensures forall i :: 0 <= i < |r| ==> r[i] != [] && r[i] != "." && '/' !in r[i]
  {
    DropDots(Split(path, '/'))
  }

  function DropDots(ps: seq<string>): (r: seq<string>)
    requires forall i :: 0 <= i < |ps| ==> '/' !in ps[i]
    ensures forall i :: 0 <= i < |r| ==> r[i] != [] && r[i] != "." && '/' !in r[i]
  {
    if ps == [] then []
    else
      var init, p := DropDots(ps[..|ps| - 1]), ps[|ps| - 1];
      if p == [] || p == "." then init else init + [p]
  }

  /** The components of a path built from components are those components. */
  lemma PathPartsOfJoin(ps: seq<string>)
    requires |ps| > 0
    requires forall i :: 0 <= i < |ps| ==> ps[i] != [] && ps[i] != "." && '/' !in ps[i]
    ensures PathParts(JoinWith(ps, '/')) == ps
  {
    SplitJoinWith(ps, '/');
    DropDotsKeeps(ps);
  }

  lemma {:induction false} DropDotsKeeps(ps: seq<string>)
    requires forall i :: 0 <= i < |ps| ==> ps[i] != [] && ps[i] != "." && '/' !in ps[i]
    ensures DropDots(ps) == ps
  {
    if ps != [] {
      DropDotsKeeps(ps[..|ps| - 1]);
    }
  }

  /** `str(Path(*parts))`: the parts joined by `/`, or `.` when there are none. */
  function PathString(parts: seq<string>): string {
    if parts == [] then "." else JoinWith(parts, '/')
  }

  predicate AllDigits(s: string) {
    forall k :: 0 <= k < |s| ==> IsDigit(s[k])
  }

  /** `n` as exactly `w` decimal digits, zero-padded (`n` is taken modulo `10^w`). */
  function Padded(n: nat, w: nat): (s: string)
    ensures |s| == w && AllDigits(s)
  {
    if w == 0 then [] else Padded(n / 10, w - 1) + [DigitChar(n % 10)]
  }

  function Pow10(w: nat): nat {
    if w == 0 then 1 else 10 * Pow10(w - 1)
  }

  /** Reading back a number written in enough digits gives the number. */
  lemma {:induction false} DecimalValueOfPadded(n: nat, w: nat)
    requires n < Pow10(w)
    ensures DecimalValue(Padded(n, w)) == n
  {
    if w > 0 {
      DecimalValueOfPadded(n / 10, w - 1);
      var s := Padded(n, w);
      assert s[..|s| - 1] == Padded(n / 10, w - 1);
    }
  }

  /** Writing back a digit string's value in as many digits gives the string. */
  lemma {:induction false} PaddedOfDecimalValue(s: string)
    requires AllDigits(s)
    ensures Padded(DecimalValue(s), |s|) == s
  {
    if s != [] {
      var init := s[..|s| - 1];
      PaddedOfDecimalValue(init);
      var d := s[|s| - 1] as int - '0' as int;
      assert 0 <= d < 10;
      var v := DecimalValue(s);
      assert v == DecimalValue(init) * 10 + d;
      assert v / 10 == DecimalValue(init) && v % 10 == d;
      assert s == init + [s[|s| - 1]];
    }
  }

  function Leap(year: int): bool {
    year % 4 == 0 && (year % 100 != 0 || year % 400 == 0)
  }

  function DaysInMonth(year: int, month: int): int {
    if month == 2 then (if Leap(year) then 29 else 28)
    else if month == 4 || month == 6 || month == 9 || month == 11 then 30
    else 31
  }

  /** The date-times `datetime` accepts. */
  predicate ValidDateTime(d: DateTime) {
    1 <= d.year <= 9999 && 1 <= d.month <= 12 && 1 <= d.day <= DaysInMonth(d.year, d.month)
    && 0 <= d.hour <= 23 && 0 <= d.minute <= 59 && 0 <= d.second <= 59
  }

  /** `s` has the shape `YYYY/MMDD/HHMMSS.csv`: each field of `%Y/%m%d/%H%M%S.csv` in its full width. */
  predicate DateTimePathShape(s: string) {
    && |s| == 20 && s[4] == '/' && s[9] == '/' && s[16..] == ".csv"
    && AllDigits(s[0..4]) && AllDigits(s[5..7]) && AllDigits(s[7..9])
    && AllDigits(s[10..12]) && AllDigits(s[12..14]) && AllDigits(s[14..16])
  }

  /** The fields of a string of that shape. */
  function DateTimeFields(s: string): DateTime
    requires DateTimePathShape(s)
  {
    DateTime(DecimalValue(s[0..4]), DecimalValue(s[5..7]), DecimalValue(s[7..9]),
             DecimalValue(s[10..12]), DecimalValue(s[12..14]), DecimalValue(s[14..16]))
  }

  /**
   * `datetime.strptime(s + " +0000", "%Y/%m%d/%H%M%S.csv %z")` for the
   * canonical zero-padded form, interpreted as UTC.
   */
  function ParseDateTimePath(s: string): Result<DateTime, SearchError> {
    if !DateTimePathShape(s) then Err(BadDateTime)
    else
      var d := DateTimeFields(s);
      if ValidDateTime(d) then Ok(d) else Err(BadDateTime)
  }

  /** The path form of a date-time: `%Y/%m%d/%H%M%S.csv`. */
  function DateTimePath(d: DateTime): string
    requires ValidDateTime(d)
  {
    Assemble(Padded(d.year, 4), Padded(d.month, 2), Padded(d.day, 2),
             Padded(d.hour, 2), Padded(d.minute, 2), Padded(d.second, 2))
  }

  function Assemble(y: string, mo: string, da: string, h: string, mi: string, se: string): string {
    y + "/" + mo + da + "/" + h + mi + se + ".csv"
  }

  /** Where each field sits in an assembled path. */
  lemma AssembleSlices(y: string, mo: string, da: string, h: string, mi: string, se: string)
    requires |y| == 4 && |mo| == 2 && |da| == 2 && |h| == 2 && |mi| == 2 && |se| == 2
    ensures var s := Assemble(y, mo, da, h, mi, se);
      && |s| == 20 && s[4] == '/' && s[9] == '/' && s[16..] == ".csv"
      && s[0..4] == y && s[5..7] == mo && s[7..9] == da
      && s[10..12] == h && s[12..14] == mi && s[14..16] == se
  {
  }

  /** Every valid date-time is read back from its path form. */
  lemma ParseDateTimePathOf(d: DateTime)
    requires ValidDateTime(d)
    ensures ParseDateTimePath(DateTimePath(d)) == Ok(d)
  {
    AssembleSlices(Padded(d.year, 4), Padded(d.month, 2), Padded(d.day, 2),
                   Padded(d.hour, 2), Padded(d.minute, 2), Padded(d.second, 2));
    assert Pow10(2) == 100 && Pow10(4) == 10000;
    DecimalValueOfPadded(d.year, 4);
    DecimalValueOfPadded(d.month, 2);
    DecimalValueOfPadded(d.day, 2);
    DecimalValueOfPadded(d.hour, 2);
    DecimalValueOfPadded(d.minute, 2);
    DecimalValueOfPadded(d.second, 2);
  }

  /** A path string is read as a date-time only when it is that date-time's path form. */
  lemma DateTimePathOfParse(s: string)
    requires ParseDateTimePath(s).Ok?
    ensures ValidDateTime(ParseDateTimePath(s).value)
    ensures DateTimePath(ParseDateTimePath(s).value) == s
  {
    var d := DateTimeFields(s);
    assert ParseDateTimePath(s).value == d;
    PaddedOfDecimalValue(s[0..4]);
    PaddedOfDecimalValue(s[5..7]);
    PaddedOfDecimalValue(s[7..9]);
    PaddedOfDecimalValue(s[10..12]);
    PaddedOfDecimalValue(s[12..14]);
    PaddedOfDecimalValue(s[14..16]);
    AssembleOfSlices(s);
  }

  /** A string of the path shape is the assembly of its own fields. */
  lemma AssembleOfSlices(s: string)
    requires |s| == 20 && s[4] == '/' && s[9] == '/' && s[16..] == ".csv"
    ensures Assemble(s[0..4], s[5..7], s[7..9], s[10..12], s[12..14], s[14..16]) == s
  {
    assert s[0..4] + "/" == s[..5];
    assert s[..5] + s[5..7] == s[..7];
    assert s[..7] + s[7..9] == s[..9];
    assert s[..9] + "/" == s[..10];
    assert s[..10] + s[10..12] == s[..12];
    assert s[..12] + s[12..14] == s[..14];
    assert s[..14] + s[14..16] == s[..16];
    assert s[..16] + s[16..] == s;
  }

  // ------------------------------------------------------------------------
  // One match to one row

  /** `" ".join(df.at[0, c] for c in ("feed", "title", "long_url"))`. */
  function SearchableText(feed: string, title: string, longUrl: string): string {
    JoinSpace([feed, title, longUrl])
  }

  function RowText(r: Row): string {
    SearchableText(r.feed, r.title, r.longUrl)
  }

  /**
   * The row for one match, `Ok(None)` when the matcher rejects it, or the error
   * that stops the search. The matcher is consulted before the path is read, so
   * a rejected row never fails on its path.
   */
  function MatchRow(content: string, fragmentIndex: int, span: MatchSpan, path: string, tools: SearchTools)
    : (r: Result<Option<Row>, SearchError>)
    ensures var csv := tools.readCsv(LineCsv(content, fragmentIndex, span));
      r == Ok(None) <==> csv.Some? && !tools.isMatch(SearchableText(csv.value.feed, csv.value.title, csv.value.longUrl))
    ensures tools.readCsv(LineCsv(content, fragmentIndex, span)).None? ==> r == Err(UnreadableLine)
    ensures r.Ok? && r.value.Some? ==>
      var row, csv := r.value.value, tools.readCsv(LineCsv(content, fragmentIndex, span));
      && csv == Some(CsvRow(row.feed, row.title, row.longUrl, row.shortUrl))
      && tools.isMatch(RowText(row))
      && |PathParts(path)| > 0 && row.channel == PathParts(path)[0]
      && ValidDateTime(row.datetime)
      && DateTimePath(row.datetime) == PathString(PathParts(path)[1..])
    ensures var csv, parts := tools.readCsv(LineCsv(content, fragmentIndex, span)), PathParts(path);
      csv.Some? && tools.isMatch(SearchableText(csv.value.feed, csv.value.title, csv.value.longUrl)) ==>
        && (parts == [] <==> r == Err(NoChannel))
        && (parts != [] ==> (r.Ok? <==> ParseDateTimePath(PathString(parts[1..])).Ok?))
        && (parts != [] && r.Err? ==> r == Err(BadDateTime))
        && (r.Ok? ==> r.value.Some?)
  {
    match tools.readCsv(LineCsv(content, fragmentIndex, span))
    case None => Err(UnreadableLine)
    case Some(csv) =>
      if !tools.isMatch(SearchableText(csv.feed, csv.title, csv.longUrl)) then Ok(None)
      else
        var parts := PathParts(path);
        if |parts| == 0 then Err(NoChannel)
        else
          match ParseDateTimePath(PathString(parts[1..]))
          case Err(e) => Err(e)
          case Ok(d) =>
            DateTimePathOfParse(PathString(parts[1..]));
            Ok(Some(Row(d, parts[0], csv.feed, csv.title, csv.longUrl, csv.shortUrl)))
  }

  // ------------------------------------------------------------------------
  // The order in which `_search` visits matches

  /** One unit of work: a failed assertion, or a match to turn into a row. */
  datatype Step =
    | Fail(error: SearchError)
    | Visit(content: string, fragmentIndex: int, span: MatchSpan, path: string)

  /** The concatenation of `f` over `xs`. */
  function FlatMap<A, B>(xs: seq<A>, f: A -> seq<B>): seq<B> {
    if xs == [] then [] else FlatMap(xs[..|xs| - 1], f) + f(xs[|xs| - 1])
  }

  lemma FlatMapSnoc<A, B>(xs: seq<A>, i: nat, f: A -> seq<B>)
    requires i < |xs|
    ensures FlatMap(xs[..i + 1], f) == FlatMap(xs[..i], f) + f(xs[i])
  {
    assert xs[..i + 1][..i] == xs[..i];
  }

  predicate IsPrefix<T(==)>(p: seq<T>, q: seq<T>) {
    |p| <= |q| && q[..|p|] == p
  }

  lemma {:induction false} FlatMapPrefix<A, B>(xs: seq<A>, i: nat, f: A -> seq<B>)
    requires i <= |xs|
    ensures IsPrefix(FlatMap(xs[..i], f), FlatMap(xs, f))
    decreases |xs|
  {
    if i < |xs| {
      var n := |xs| - 1;
      assert xs[..n][..i] == xs[..i];
      FlatMapPrefix(xs[..n], i, f);
      assert xs[..|xs|] == xs;
    } else {
      assert xs[..i] == xs;
    }
  }

  lemma PrefixTrans<T>(p: seq<T>, q: seq<T>, r: seq<T>)
    requires IsPrefix(p, q) && IsPrefix(q, r)
    ensures IsPrefix(p, r)
  {
    assert r[..|p|] == r[..|q|][..|p|];
  }

  lemma PrefixAfter<T>(a: seq<T>, p: seq<T>, q: seq<T>)
    requires IsPrefix(p, q)
    ensures IsPrefix(a + p, a + q)
  {
    assert (a + q)[..|a + p|] == a + q[..|p|];
  }

  /** The steps of one match span. */
  function SpanStepsOf(content: string, fragmentIndex: int, path: string): MatchSpan -> seq<Step> {
    span => [Visit(content, fragmentIndex, span, path)]
  }

  /** The steps of one text match: the fragment must occur in the file. */
  function FragmentSteps(content: string, path: string, tm: TextMatch): seq<Step> {
    var fi := Find(content, tm.fragment);
    if fi == -1 then [Fail(FragmentNotFound)]
    else FlatMap(tm.matches, SpanStepsOf(content, fi, path))
  }

  function FragmentStepsOf(content: string, path: string): TextMatch -> seq<Step> {
    tm => FragmentSteps(content, path, tm)
  }

  /** The steps of one hit: the file must start with the header. */
  function HitSteps(hit: CodeHit): seq<Step> {
    if !StartsWith(hit.content, Header) then [Fail(ContentWithoutHeader)]
    else FlatMap(hit.textMatches, FragmentStepsOf(hit.content, hit.path))
  }

  /** All steps of a search, in the order of the hits, their text matches and their spans. */
  function Steps(hits: seq<CodeHit>): seq<Step> {
    FlatMap(hits, HitSteps)
  }

  function StepRow(step: Step, tools: SearchTools): Result<Option<Row>, SearchError> {
    match step
    case Fail(e) => Err(e)
    case Visit(content, fi, span, path) => MatchRow(content, fi, span, path, tools)
  }

  type RowResult = Result<Option<Row>, SearchError>

  /** The rows of a sequence of work items, each giving a row, no row or an error: the rows, or the first error. */
  function Collect<S>(steps: seq<S>, rowOf: S -> RowResult): Result<seq<Row>, SearchError> {
    if steps == [] then Ok([])
    else
      match Collect(steps[..|steps| - 1], rowOf)
      case Err(e) => Err(e)
      case Ok(rows) =>
        match rowOf(steps[|steps| - 1])
        case Err(e) => Err(e)
        case Ok(None) => Ok(rows)
        case Ok(Some(row)) => Ok(rows + [row])
  }

  function RowOf(tools: SearchTools): Step -> RowResult {
    step => StepRow(step, tools)
  }

  /** The rows the steps of a search produce, or the first error among them. Every row passed the matcher. */
  function Rows(steps: seq<Step>, tools: SearchTools): (r: Result<seq<Row>, SearchError>)
    ensures r.Ok? ==> forall x :: x in r.value ==> tools.isMatch(RowText(x))
  {
    RowsMatched(steps, tools);
    Collect(steps, RowOf(tools))
  }

  lemma {:induction false} RowsMatched(steps: seq<Step>, tools: SearchTools)
    ensures var r := Collect(steps, RowOf(tools));
      r.Ok? ==> forall x :: x in r.value ==> tools.isMatch(RowText(x))
  {
    if steps != [] {
      var n := |steps| - 1;
      RowsMatched(steps[..n], tools);
      assert RowOf(tools)(steps[n]) == StepRow(steps[n], tools);
    }
  }

  /** After an error, later items change nothing. */
  lemma {:induction false} CollectErrPrefix<S>(p: seq<S>, q: seq<S>, rowOf: S -> RowResult)
    requires IsPrefix(p, q)
    requires Collect(p, rowOf).Err?
    ensures Collect(q, rowOf) == Collect(p, rowOf)
    decreases |q|
  {
    if |q| > |p| {
      var n := |q| - 1;
      assert q[..n][..|p|] == p;
      CollectErrPrefix(p, q[..n], rowOf);
    } else {
      assert q == q[..|p|];
    }
  }

  /** The rows of a prefix of the items are a prefix of the rows of all items. */
  lemma {:induction false} CollectPrefix<S>(p: seq<S>, q: seq<S>, rowOf: S -> RowResult)
    requires IsPrefix(p, q)
    requires Collect(q, rowOf).Ok?
    ensures Collect(p, rowOf).Ok?
    ensures IsPrefix(Collect(p, rowOf).value, Collect(q, rowOf).value)
    decreases |q|
  {
    if |q| > |p| {
      var n := |q| - 1;
      assert q[..n][..|p|] == p;
      CollectPrefix(p, q[..n], rowOf);
      var a, b, c := Collect(p, rowOf).value, Collect(q[..n], rowOf).value, Collect(q, rowOf).value;
      assert c[..|b|] == b;
      assert c[..|a|] == b[..|a|];
    } else {
      assert q == q[..|p|];
    }
  }

  /** An item whose row fails ends the rows with its error. */
  lemma CollectSnocErr<S>(steps: seq<S>, step: S, rowOf: S -> RowResult)
    requires Collect(steps, rowOf).Ok? && rowOf(step).Err?
    ensures Collect(steps + [step], rowOf) == Err(rowOf(step).error)
  {
    assert (steps + [step])[..|steps|] == steps;
  }

  /** An item whose row is made adds it; an item that gives no row adds nothing. */
  lemma CollectSnocOk<S>(steps: seq<S>, step: S, rowOf: S -> RowResult)
    requires Collect(steps, rowOf).Ok? && rowOf(step).Ok?
    ensures Collect(steps + [step], rowOf) == Ok(Collect(steps, rowOf).value + rowOf(step).value.ToSeq())
  {
    assert (steps + [step])[..|steps|] == steps;
    assert Collect(steps, rowOf).value + [] == Collect(steps, rowOf).value;
  }

  /** Taking one more item of a level extends the steps done, and stays a prefix of the level's steps. */
  lemma Extend<A, B>(base: seq<B>, items: seq<A>, f: A -> seq<B>, j: nat)
    requires j < |items|
    ensures base + FlatMap(items[..j], f) + f(items[j]) == base + FlatMap(items[..j + 1], f)
    ensures IsPrefix(base + FlatMap(items[..j], f), base + FlatMap(items, f))
    ensures IsPrefix(base + FlatMap(items[..j + 1], f), base + FlatMap(items, f))
  {
    FlatMapSnoc(items, j, f);
    assert base + FlatMap(items[..j], f) + f(items[j]) == base + (FlatMap(items[..j], f) + f(items[j]));
    FlatMapPrefix(items, j, f);
    FlatMapPrefix(items, j + 1, f);
    PrefixAfter(base, FlatMap(items[..j], f), FlatMap(items, f));
    PrefixAfter(base, FlatMap(items[..j + 1], f), FlatMap(items, f));
  }

  // ------------------------------------------------------------------------
  // What the held rows say about the rows found so far

  /**
   * `held` summarises `found`: its rows come from `found`, it has the same keys,
   * and for every found row it holds a row with that key at least as new.
   */
  ghost predicate Covers(held: seq<Row>, found: seq<Row>) {
    && (forall x :: x in held ==> x in found)
    && KeySet(held, RowKey) == KeySet(found, RowKey)
    && (forall j :: 0 <= j < |found| ==> NewerHeld(held, found[j]))
  }

  /** `held` has a row with the key of `y` that is at least as new as `y`. */
  ghost predicate NewerHeld(held: seq<Row>, y: Row) {
    exists i :: 0 <= i < |held| && RowKey(held[i]) == RowKey(y) && Stamp(y.datetime) <= Stamp(held[i].datetime)
  }

  lemma CoversSnoc(held: seq<Row>, found: seq<Row>, row: Row)
    requires Covers(held, found)
    ensures Covers(held + [row], found + [row])
  {
    var h, f := held + [row], found + [row];
    KeySetSnoc(h, RowKey);
    KeySetSnoc(f, RowKey);
    assert h[..|h| - 1] == held && f[..|f| - 1] == found;
    forall j | 0 <= j < |f| ensures NewerHeld(h, f[j]) {
      if j < |found| {
        assert f[j] == found[j] && NewerHeld(held, found[j]);
        var i :| 0 <= i < |held| && RowKey(held[i]) == RowKey(found[j]) && Stamp(found[j].datetime) <= Stamp(held[i].datetime);
        assert h[i] == held[i];
      } else {
        assert f[j] == row && h[|held|] == row;
      }
    }
  }

  lemma CoversMerge(held: seq<Row>, found: seq<Row>)
    requires Covers(held, found)
    ensures Covers(Merge(held), found)
  {
    var m := Merge(held);
    MergeSpec(held);
    forall j | 0 <= j < |found| ensures NewerHeld(m, found[j]) {
      var y := found[j];
      assert NewerHeld(held, y);
      var i :| 0 <= i < |held| && RowKey(held[i]) == RowKey(y) && Stamp(y.datetime) <= Stamp(held[i].datetime);
      assert RowKey(held[i]) in KeySet(held, RowKey);
      var k :| 0 <= k < |m| && RowKey(m[k]) == RowKey(held[i]);
      assert m[k] in m && held[i] in held;
      assert Stamp(held[i].datetime) <= Stamp(m[k].datetime);
    }
  }

  /** With distinct keys, the held row of each key is at least as new as every found row with that key. */
  lemma CoversNewest(held: seq<Row>, found: seq<Row>)
    requires Covers(held, found) && DistinctKeys(held, RowKey)
    ensures forall x, y :: x in held && y in found && RowKey(x) == RowKey(y) ==> Stamp(y.datetime) <= Stamp(x.datetime)
  {
    forall x, y | x in held && y in found && RowKey(x) == RowKey(y) ensures Stamp(y.datetime) <= Stamp(x.datetime) {
      var j :| 0 <= j < |found| && found[j] == y;
      assert NewerHeld(held, found[j]);
      var i :| 0 <= i < |held| && RowKey(held[i]) == RowKey(y) && Stamp(y.datetime) <= Stamp(held[i].datetime);
      var i' :| 0 <= i' < |held| && held[i'] == x;
      assert i == i';
    }
  }

  /** The loop state of `_search`: the counter is the number of held rows, below the cap, and they summarise the rows found. */
  ghost predicate Held(frames: seq<seq<Row>>, numResults: int, found: seq<Row>) {
    && numResults == |Flatten(frames)| < MaxResults
    && Covers(Flatten(frames), found)
    && (frames == [] <==> found == [])
  }

  /** Held rows number fewer than 500, so the rows found carry fewer than 500 keys. */
  lemma HeldUnderCap(frames: seq<seq<Row>>, n: nat, found: seq<Row>)
    requires Held(frames, n, found)
    ensures |KeySet(found, RowKey)| < MaxResults
  {
    KeySetSize(Flatten(frames), RowKey);
  }

  /**
   * Lines 56-65 of `_search` once a row passed the matcher: the row is held and
   * counted, and at 500 held rows they are merged and recounted. `full` is
   * whether 500 rows remain after merging, in which case the search stops.
   */
  method HoldRow(dfs: ResultFrames, numResults: nat, row: Row, ghost found: seq<Row>) returns (n: nat, full: bool)
    requires Held(dfs.frames, numResults, found)
    modifies dfs
    ensures !full ==> Held(dfs.frames, n, found + [row])
    ensures full ==>
      && |dfs.frames| == 1 && |dfs.frames[0]| == MaxResults
      && SortedNewestFirst(dfs.frames[0]) && DistinctKeys(dfs.frames[0], RowKey)
      && Covers(dfs.frames[0], found + [row])
  {
    CoversSnoc(Flatten(dfs.frames), found, row);
    FlattenAppend(dfs.frames, [row]);
    dfs.Append([row]);
    n := numResults + 1;
    full := false;
    if n == MaxResults {
      MergedHeld(dfs.frames, found + [row]);
      dfs.Concat();
      n := |dfs.frames[0]|;
      full := n == MaxResults;
    }
  }

  /** Merging held rows that summarise the found rows leaves one frame that still summarises them. */
  lemma MergedHeld(frames: seq<seq<Row>>, found: seq<Row>)
    requires Covers(Flatten(frames), found) && found != []
    ensures var m := Merge(Flatten(frames));
      && 0 < |m| <= |Flatten(frames)|
      && SortedNewestFirst(m) && DistinctKeys(m, RowKey)
      && Covers(m, found)
      && Flatten([m]) == m
  {
    var held := Flatten(frames);
    CoversMerge(held, found);
    MergeSpec(held);
    var m := Merge(held);
    assert Flatten([m]) == Flatten([m][..0]) + m;
    assert RowKey(found[0]) in KeySet(found, RowKey);
  }

  /** Lines 67-70 of `_search`: no held rows give no results, otherwise the merged rows, not truncated. */
  method Finish(dfs: ResultFrames, numResults: nat, ghost found: seq<Row>) returns (r: SearchResults)
    requires Held(dfs.frames, numResults, found)
    modifies dfs
    ensures r.NoResults? <==> found == []
    ensures r.Found? ==>
      && !r.truncated && 0 < |r.rows| < MaxResults
      && SortedNewestFirst(r.rows) && DistinctKeys(r.rows, RowKey)
      && Covers(r.rows, found)
      && (forall x, y :: x in r.rows && y in found && RowKey(x) == RowKey(y) ==> Stamp(y.datetime) <= Stamp(x.datetime))
  {
    if dfs.frames != [] {
      MergedHeld(dfs.frames, found);
      dfs.Concat();
      var rows := dfs.frames[0];
      CoversNewest(rows, found);
      return Found(rows, false);
    }
    return NoResults;
  }

  /** How a loop of `_search` ended: it ran out of items, or the search stopped with a result. */
  datatype Progress = Going | Halted(result: Result<SearchResults, SearchError>)

  /** A truncated result: 500 merged rows that summarise the rows found. */
  ghost predicate Truncated(res: SearchResults, found: seq<Row>) {
    && res.Found? && res.truncated
    && |res.rows| == MaxResults && found != []
    && SortedNewestFirst(res.rows) && DistinctKeys(res.rows, RowKey)
    && Covers(res.rows, found)
  }

  /**
   * The steps give rows, and those rows carry fewer than 500 distinct keys, so
   * no merge within them left 500 rows.
   */
  ghost predicate UnderCap(steps: seq<Step>, tools: SearchTools) {
    Rows(steps, tools).Ok? && |KeySet(Rows(steps, tools).value, RowKey)| < MaxResults
  }

  /** A prefix of steps that stay under the cap stays under it. */
  lemma UnderCapPrefix(steps: seq<Step>, tools: SearchTools, c: nat, c': nat)
    requires c <= c' <= |steps|
    requires UnderCap(steps[..c'], tools)
    ensures UnderCap(steps[..c], tools)
  {
    assert steps[..c'][..c] == steps[..c];
    CollectPrefix(steps[..c], steps[..c'], RowOf(tools));
    var a, b := Rows(steps[..c], tools).value, Rows(steps[..c'], tools).value;
    KeySetPrefix(b, |a|, RowKey);
    assert b[..|a|] == a;
  }

  /**
   * What one loop of `_search` establishes about the steps `whole` it was
   * given: the steps it did form a prefix of them; running out of items means
   * all were done. An error is the first error of `whole`: `done` are the
   * steps before the failing one, and their rows are under the cap. A
   * truncated result summarises the rows of the steps done, whose last step
   * brought the rows to the cap from under it.
   */
  ghost predicate Outcome(progress: Progress, frames: seq<seq<Row>>, n: nat, tools: SearchTools,
                          whole: seq<Step>, done: seq<Step>, found: seq<Row>) {
    && IsPrefix(done, whole)
    && (progress.Going? ==> done == whole && Rows(done, tools) == Ok(found) && Held(frames, n, found))
    && (progress.Halted? && progress.result.Err? ==> ErrorStop(progress.result.error, tools, whole, done, found))
    && (progress.Halted? && progress.result.Ok? ==> TruncationStop(progress.result.value, tools, done, found))
  }

  /** The steps after `done` fail first at the next one, and the rows of `done` are under the cap. */
  ghost predicate ErrorStop(e: SearchError, tools: SearchTools, whole: seq<Step>, done: seq<Step>, found: seq<Row>) {
    && Rows(whole, tools) == Err(e)
    && |done| < |whole| && Rows(whole[..|done| + 1], tools) == Err(e)
    && Rows(done, tools) == Ok(found) && |KeySet(found, RowKey)| < MaxResults
  }

  /** `res` truncates the rows of `done`, whose last step brought them from under the cap to it. */
  ghost predicate TruncationStop(res: SearchResults, tools: SearchTools, done: seq<Step>, found: seq<Row>) {
    && Rows(done, tools) == Ok(found) && Truncated(res, found)
    && 0 < |done| && 0 < |found|
    && Rows(done[..|done| - 1], tools) == Ok(found[..|found| - 1])
    && |KeySet(found[..|found| - 1], RowKey)| < MaxResults
  }

  /** A stop inside a prefix of the steps is a stop for all of them. */
  lemma OutcomeWiden(progress: Progress, frames: seq<seq<Row>>, n: nat, tools: SearchTools,
                     part: seq<Step>, whole: seq<Step>, done: seq<Step>, found: seq<Row>)
    requires progress.Halted?
    requires IsPrefix(part, whole)
    requires Outcome(progress, frames, n, tools, part, done, found)
    ensures Outcome(progress, frames, n, tools, whole, done, found)
  {
    PrefixTrans(done, part, whole);
    if progress.result.Err? {
      CollectErrPrefix(part, whole, RowOf(tools));
      assert whole[..|done| + 1] == part[..|done| + 1];
    }
  }

  /**
   * Lines 47-65 of `_search` for one match: read its row, and hold it when the
   * matcher accepts it.
   */
  method VisitSpan(dfs: ResultFrames, numResults: nat, content: string, fi: int, span: MatchSpan, path: string,
                   tools: SearchTools, ghost done: seq<Step>, ghost found: seq<Row>)
    returns (n: nat, progress: Progress, ghost did: seq<Step>, ghost found': seq<Row>)
    requires Rows(done, tools) == Ok(found)
    requires Held(dfs.frames, numResults, found)
    modifies dfs
    ensures var next := done + [Visit(content, fi, span, path)];
      Outcome(progress, dfs.frames, n, tools, next, did, found')
  {
    ghost var step := Visit(content, fi, span, path);
    HeldUnderCap(dfs.frames, numResults, found);
    n, found', did := numResults, found, done + [step];
    var row := MatchRow(content, fi, span, path, tools);
    assert RowOf(tools)(step) == row;
    if row.Err? {
      progress := Halted(Err(row.error));
      OutcomeOfFail(row.error, step, dfs.frames, n, tools, done + [step], done, found');
      did := done;
      return;
    }
    CollectSnocOk(done, step, RowOf(tools));
    if row.value.None? {
      assert row.value.ToSeq() == [];
      progress := Going;
      OutcomeOfGoing(dfs.frames, n, tools, done + [step], found');
      return;
    }
    var x := row.value.value;
    assert row.value.ToSeq() == [x];
    var full;
    n, full := HoldRow(dfs, n, x, found');
    found' := found' + [x];
    if full {
      progress := Halted(Ok(Found(dfs.frames[0], true)));
      assert (done + [step])[..|done|] == done && found'[..|found'| - 1] == found;
      OutcomeOfTruncated(progress.result.value, dfs.frames, n, tools, done + [step], found');
    } else {
      progress := Going;
      OutcomeOfGoing(dfs.frames, n, tools, done + [step], found');
    }
  }

  /** A failing step right after the steps done stops the search with its error. */
  lemma OutcomeOfFail(e: SearchError, step: Step, frames: seq<seq<Row>>, n: nat, tools: SearchTools,
                      whole: seq<Step>, done: seq<Step>, found: seq<Row>)
    requires Rows(done, tools) == Ok(found) && Held(frames, n, found)
    requires StepRow(step, tools) == Err(e)
    requires IsPrefix(done + [step], whole)
    ensures Outcome(Halted(Err(e)), frames, n, tools, whole, done, found)
  {
    HeldUnderCap(frames, n, found);
    assert RowOf(tools)(step) == Err(e);
    CollectSnocErr(done, step, RowOf(tools));
    CollectErrPrefix(done + [step], whole, RowOf(tools));
    assert (done + [step])[..|done|] == done;
    assert whole[..|done| + 1] == done + [step];
    PrefixTrans(done, done + [step], whole);
  }

  lemma OutcomeOfGoing(frames: seq<seq<Row>>, n: nat, tools: SearchTools, steps: seq<Step>, found: seq<Row>)
    requires Rows(steps, tools) == Ok(found) && Held(frames, n, found)
    ensures Outcome(Going, frames, n, tools, steps, steps, found)
  {
  }

  lemma OutcomeOfTruncated(res: SearchResults, frames: seq<seq<Row>>, n: nat, tools: SearchTools, steps: seq<Step>, found: seq<Row>)
    requires Rows(steps, tools) == Ok(found) && Truncated(res, found)
    requires 0 < |steps| && 0 < |found|
    requires Rows(steps[..|steps| - 1], tools) == Ok(found[..|found| - 1])
    requires |KeySet(found[..|found| - 1], RowKey)| < MaxResults
    ensures Outcome(Halted(Ok(res)), frames, n, tools, steps, steps, found)
  {
  }

  /** The innermost loop of `_search` (lines 47-65), over the matches of one text match whose fragment starts at `fi`. */
  method VisitSpans(dfs: ResultFrames, numResults: nat, content: string, fi: int, spans: seq<MatchSpan>, path: string,
                    tools: SearchTools, ghost base: seq<Step>, ghost found: seq<Row>)
    returns (n: nat, progress: Progress, ghost done: seq<Step>, ghost found': seq<Row>)
    requires Rows(base, tools) == Ok(found)
    requires Held(dfs.frames, numResults, found)
    modifies dfs
    ensures Outcome(progress, dfs.frames, n, tools, base + FlatMap(spans, SpanStepsOf(content, fi, path)), done, found')
  {
    n, done, found' := numResults, base, found;
    ghost var g := SpanStepsOf(content, fi, path);
    assert base + FlatMap(spans[..0], g) == base;
    var k := 0;
    while k < |spans|
      invariant k <= |spans|
      invariant done == base + FlatMap(spans[..k], g)
      invariant Rows(done, tools) == Ok(found')
      invariant Held(dfs.frames, n, found')
    {
      Extend(base, spans, g, k);
      ghost var next := done + [Visit(content, fi, spans[k], path)];
      assert g(spans[k]) == [Visit(content, fi, spans[k], path)];
      assert next == base + FlatMap(spans[..k + 1], g);
      var p;
      ghost var did, fd;
      n, p, did, fd := VisitSpan(dfs, n, content, fi, spans[k], path, tools, done, found');
      if p.Halted? {
        OutcomeWiden(p, dfs.frames, n, tools, next, base + FlatMap(spans, g), did, fd);
        progress, done, found' := p, did, fd;
        return;
      }
      done, found' := next, fd;
      k := k + 1;
    }
    assert spans[..k] == spans;
    progress := Going;
  }

  /** The middle loop of `_search` (lines 43-65), over the text matches of one hit. */
  method VisitTextMatches(dfs: ResultFrames, numResults: nat, content: string, path: string, tms: seq<TextMatch>,
                          tools: SearchTools, ghost base: seq<Step>, ghost found: seq<Row>)
    returns (n: nat, progress: Progress, ghost done: seq<Step>, ghost found': seq<Row>)
    requires Rows(base, tools) == Ok(found)
    requires Held(dfs.frames, numResults, found)
    modifies dfs
    ensures Outcome(progress, dfs.frames, n, tools, base + FlatMap(tms, FragmentStepsOf(content, path)), done, found')
  {
    n, done, found' := numResults, base, found;
    ghost var f := FragmentStepsOf(content, path);
    assert base + FlatMap(tms[..0], f) == base;
    var j := 0;
    while j < |tms|
      invariant j <= |tms|
      invariant done == base + FlatMap(tms[..j], f)
      invariant Rows(done, tools) == Ok(found')
      invariant Held(dfs.frames, n, found')
    {
      var fi := Find(content, tms[j].fragment);
      Extend(base, tms, f, j);
      if fi == -1 {
        assert f(tms[j]) == [Fail(FragmentNotFound)];
        progress := Halted(Err(FragmentNotFound));
        OutcomeOfFail(FragmentNotFound, Fail(FragmentNotFound), dfs.frames, n, tools, base + FlatMap(tms, f), done, found');
        return;
      }
      assert f(tms[j]) == FlatMap(tms[j].matches, SpanStepsOf(content, fi, path));
      var p;
      ghost var d, fd;
      n, p, d, fd := VisitSpans(dfs, n, content, fi, tms[j].matches, path, tools, done, found');
      if p.Halted? {
        OutcomeWiden(p, dfs.frames, n, tools, base + FlatMap(tms[..j + 1], f), base + FlatMap(tms, f), d, fd);
        progress, done, found' := p, d, fd;
        return;
      }
      done, found' := d, fd;
      j := j + 1;
    }
    assert tms[..j] == tms;
    progress := Going;
  }

  /** The outer loop of `_search` (lines 41-65), over the hits. */
  method VisitHits(dfs: ResultFrames, hits: seq<CodeHit>, tools: SearchTools)
    returns (n: nat, progress: Progress, ghost done: seq<Step>, ghost found: seq<Row>)
    requires dfs.frames == []
    modifies dfs
    ensures Outcome(progress, dfs.frames, n, tools, Steps(hits), done, found)
  {
    n := 0;
    done, found := [], [];
    var i := 0;
    while i < |hits|
      invariant i <= |hits|
      invariant done == Steps(hits[..i])
      invariant Rows(done, tools) == Ok(found)
      invariant Held(dfs.frames, n, found)
    {
      var hit := hits[i];
      Extend([], hits, HitSteps, i);
      assert [] + Steps(hits[..i]) == done && [] + Steps(hits) == Steps(hits);
      if !StartsWith(hit.content, Header) {
        assert HitSteps(hit) == [Fail(ContentWithoutHeader)];
        progress := Halted(Err(ContentWithoutHeader));
        OutcomeOfFail(ContentWithoutHeader, Fail(ContentWithoutHeader), dfs.frames, n, tools, Steps(hits), done, found);
        return;
      }
      var p;
      ghost var d, fd;
      n, p, d, fd := VisitTextMatches(dfs, n, hit.content, hit.path, hit.textMatches, tools, done, found);
      assert done + HitSteps(hit) == Steps(hits[..i + 1]);
      if p.Halted? {
        OutcomeWiden(p, dfs.frames, n, tools, Steps(hits[..i + 1]), Steps(hits), d, fd);
        progress, done, found := p, d, fd;
        return;
      }
      done, found := d, fd;
      i := i + 1;
    }
    assert hits[..i] == hits;
    progress := Going;
  }

  /**
   * The search over `whole` fails with `e`: the step after the first
   * `consumed` ones is the first that fails, and every prefix up to it is under
   * the cap, so no merge before it left 500 rows.
   */
  ghost predicate StopsWithError(whole: seq<Step>, tools: SearchTools, e: SearchError, consumed: nat) {
    && Rows(whole, tools) == Err(e)
    && consumed < |whole|
    && Rows(whole[..consumed + 1], tools) == Err(e)
    && (forall c :: 0 <= c <= consumed ==> UnderCap(whole[..c], tools))
  }

  /**
   * The search over `whole` is truncated to `rows` after `consumed` steps: the
   * rows of those steps carry 500 keys while every shorter prefix is under the
   * cap, and `rows` are 500 rows that summarise them.
   */
  ghost predicate StopsTruncated(whole: seq<Step>, tools: SearchTools, rows: seq<Row>, consumed: nat) {
    && |rows| == MaxResults
    && 0 < consumed <= |whole|
    && (forall c :: 0 <= c < consumed ==> UnderCap(whole[..c], tools))
    && Rows(whole[..consumed], tools).Ok?
    && |KeySet(Rows(whole[..consumed], tools).value, RowKey)| == MaxResults
    && Covers(rows, Rows(whole[..consumed], tools).value)
    && (Rows(whole, tools).Ok? ==> IsPrefix(Rows(whole[..consumed], tools).value, Rows(whole, tools).value))
  }

  /**
   * The search over `whole` ran to the end with `rows`: fewer than 500 rows
   * that summarise all rows found, each the newest of its key, and the rows
   * found stay under the cap.
   */
  ghost predicate Completes(whole: seq<Step>, tools: SearchTools, rows: seq<Row>) {
    && |rows| < MaxResults
    && Rows(whole, tools).Ok?
    && Covers(rows, Rows(whole, tools).value)
    && (forall x, y :: x in rows && y in Rows(whole, tools).value && RowKey(x) == RowKey(y) ==>
          Stamp(y.datetime) <= Stamp(x.datetime))
    && UnderCap(whole, tools)
  }

  /**
   * `Searcher._search`. Visits every match of every hit in order, skips rows
   * the matcher rejects, and merges the held rows whenever there are 500 of
   * them, stopping with a truncated result when merging leaves 500. Merging
   * leaves one row per key, so the search stops at the first step after which
   * the rows found carry 500 distinct keys; `consumed` counts the steps done,
   * or on an error the steps before the failing one.
   */
  method Search(hits: seq<CodeHit>, tools: SearchTools) returns (r: Result<SearchResults, SearchError>, ghost consumed: nat)
    ensures r.Err? ==> StopsWithError(Steps(hits), tools, r.error, consumed)
    ensures r == Ok(NoResults) <==> Rows(Steps(hits), tools) == Ok([])
    ensures r.Ok? && r.value.Found? ==>
      var rows := r.value.rows;
      && 0 < |rows| <= MaxResults
      && SortedNewestFirst(rows)
      && DistinctKeys(rows, RowKey)
      && (forall x :: x in rows ==> tools.isMatch(RowText(x)))
    ensures r.Ok? && r.value.Found? && !r.value.truncated ==> Completes(Steps(hits), tools, r.value.rows)
    ensures r.Ok? && r.value.Found? && r.value.truncated ==> StopsTruncated(Steps(hits), tools, r.value.rows, consumed)
  {
    var dfs := new ResultFrames();
    var numResults, p;
    ghost var done, found;
    numResults, p, done, found := VisitHits(dfs, hits, tools);
    consumed := |done|;
    if p.Going? {
      var results := Finish(dfs, numResults, found);
      Completed(results, tools, Steps(hits), found);
      return Ok(results), consumed;
    }
    Stopped(p, dfs.frames, numResults, tools, Steps(hits), done, found);
    return p.result, consumed;
  }

  /** A search that ran to the end with the rows `Finish` returns completes. */
  lemma Completed(res: SearchResults, tools: SearchTools, whole: seq<Step>, found: seq<Row>)
    requires Rows(whole, tools) == Ok(found)
    requires res.NoResults? <==> found == []
    requires res.Found? ==>
      && !res.truncated && 0 < |res.rows| < MaxResults
      && SortedNewestFirst(res.rows) && DistinctKeys(res.rows, RowKey)
      && Covers(res.rows, found)
      && (forall x, y :: x in res.rows && y in found && RowKey(x) == RowKey(y) ==> Stamp(y.datetime) <= Stamp(x.datetime))
    ensures res.Found? ==> Completes(whole, tools, res.rows)
    ensures res.Found? ==> forall x :: x in res.rows ==> tools.isMatch(RowText(x))
  {
    if res.Found? {
      KeySetSize(res.rows, RowKey);
      assert KeySet(res.rows, RowKey) == KeySet(found, RowKey);
    }
  }

  /**
   * Where a halted search stopped: an error at the step after `done`, with
   * every prefix up to it under the cap; or a truncation at the last step of
   * `done`, whose rows carry 500 keys while every shorter prefix is under the cap.
   */
  lemma Stopped(progress: Progress, frames: seq<seq<Row>>, n: nat, tools: SearchTools,
                whole: seq<Step>, done: seq<Step>, found: seq<Row>)
    requires progress.Halted? && Outcome(progress, frames, n, tools, whole, done, found)
    ensures progress.result.Err? ==> StopsWithError(whole, tools, progress.result.error, |done|)
    ensures progress.result.Ok? ==>
      && Truncated(progress.result.value, found)
      && (forall x :: x in progress.result.value.rows ==> tools.isMatch(RowText(x)))
      && StopsTruncated(whole, tools, progress.result.value.rows, |done|)
  {
    assert whole[..|done|] == done;
    if progress.result.Err? {
      StoppedByError(progress.result.error, tools, whole, done, found);
    } else {
      StoppedByTruncation(progress.result.value, tools, whole, done, found);
      TruncatedKeys(progress.result.value, found);
      if Rows(whole, tools).Ok? {
        CollectPrefix(done, whole, RowOf(tools));
      }
    }
  }

  lemma StoppedByError(e: SearchError, tools: SearchTools, whole: seq<Step>, done: seq<Step>, found: seq<Row>)
    requires IsPrefix(done, whole) && ErrorStop(e, tools, whole, done, found)
    ensures forall c :: 0 <= c <= |done| ==> UnderCap(whole[..c], tools)
  {
    assert whole[..|done|] == done && UnderCap(done, tools);
    UnderCapUpTo(whole, tools, |done|);
  }

  lemma StoppedByTruncation(res: SearchResults, tools: SearchTools, whole: seq<Step>, done: seq<Step>, found: seq<Row>)
    requires IsPrefix(done, whole) && TruncationStop(res, tools, done, found)
    ensures forall c :: 0 <= c < |done| ==> UnderCap(whole[..c], tools)
  {
    var m := |done| - 1;
    SlicePrefix(done, whole, m);
    assert UnderCap(done[..m], tools);
    UnderCapUpTo(whole, tools, m);
  }

  /** Truncated rows have distinct keys, 500 of them, the same keys as the rows found. */
  lemma TruncatedKeys(res: SearchResults, found: seq<Row>)
    requires Truncated(res, found)
    ensures |KeySet(found, RowKey)| == MaxResults
  {
    KeySetSize(res.rows, RowKey);
  }

  lemma SlicePrefix<T>(p: seq<T>, q: seq<T>, m: nat)
    requires IsPrefix(p, q) && m <= |p|
    ensures q[..m] == p[..m]
  {
  }

  /** Every prefix of steps under the cap, up to `c'`, is under the cap. */
  lemma UnderCapUpTo(whole: seq<Step>, tools: SearchTools, c': nat)
    requires c' <= |whole| && UnderCap(whole[..c'], tools)
    ensures forall c :: 0 <= c <= c' ==> UnderCap(whole[..c], tools)
  {
    forall c | 0 <= c <= c' ensures UnderCap(whole[..c], tools) {
      UnderCapPrefix(whole, tools, c, c');
    }
  }
}
