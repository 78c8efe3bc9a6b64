/**
 * A feed's entries: choosing the entry parser, reading the configured URLs and
 * the URLs the parser asks to follow (each at most once), cleaning the entries
 * up, removing duplicates, and choosing the entries that may be posted.
 *
 * Fetching a URL and parsing its content are one abstract function of the
 * chosen parser and the URL. Regular-expression substitution and formatting,
 * HTML-to-text conversion, title shortening and the database queries are
 * abstract functions too.
 */
module Feed {
  import opened Wrappers
  import opened PyStr
  import opened Dedupe

  type Url = string

  /** The key and pattern of the whitelist pattern an entry matched. */
  datatype WhitelistMatch = WhitelistMatch(key: string, pattern: string)

  /**
   * A feed entry. `blacklisted` and `whitelistMatch` are the entry's
   * `blacklisted_pattern` and `whitelisted_pattern`, computed elsewhere from the
   * feed's patterns.
   */
  datatype Entry = Entry(
    title: string,
    longUrl: Url,
    summary: string,
    blacklisted: bool,
    whitelistMatch: Option<WhitelistMatch>,
    matchingTitleSearchPattern: Option<string>)

  /** The exceptions the code raises. */
  datatype FeedError =
    | MissingSelect(parser: string)          // KeyError: a parser's mapping has no "select"
    | UnknownDedupStrategy(strategy: string) // AssertionError: dedup is neither "channel" nor "feed"
    | UnknownNewSetting(setting: string)     // KeyError in NEW_FEED_POSTS_MAX

  function MapSeq<T, U>(f: T -> U, s: seq<T>): (r: seq<U>)
    ensures |r| == |s| && forall i :: 0 <= i < |s| ==> r[i] == f(s[i])
  {
    seq(|s|, i requires 0 <= i < |s| => f(s[i]))
  }

  /** `[x for x in s if p(x)]`. */
  function Keep<T>(s: seq<T>, p: T -> bool): (r: seq<T>)
    ensures |r| <= |s|
    ensures forall x :: x in r ==> x in s && p(x)
    ensures forall x :: x in s && p(x) ==> x in r
  {
    if s == [] then []
    else Keep(s[..|s| - 1], p) + (if p(s[|s| - 1]) then [s[|s| - 1]] else [])
  }

  /** Filtering distributes over concatenation: the kept elements keep their order. */
  lemma {:induction false} KeepAppend<T>(a: seq<T>, b: seq<T>, p: T -> bool)
    ensures Keep(a + b, p) == Keep(a, p) + Keep(b, p)
  {
    if b != [] {
      var n := |b| - 1;
      assert (a + b)[..|a + b| - 1] == a + b[..n];
      KeepAppend(a, b[..n], p);
    } else {
      assert a + b == a;
    }
  }

  // ------------------------------------------------------------------------
  // Choosing the entry parser

  datatype ParserName = Hext | Jmespath | Pandas | Feedparser

  /**
   * A parser setting of the feed configuration: a selector string, or a
   * mapping from keys to a string or `None`.
   */
  datatype ParserSetting =
    | Selector(selector: string)
    | Mapping(fields: map<string, Option<string>>)

  datatype ParserChoice = ParserChoice(name: ParserName, selector: Option<string>, follower: Option<string>)

  /** The configuration keys that name a parser, in the order they are tried. */
  const ParserKeys: seq<string> := ["hext", "jmes", "jmespath", "pandas"]

  const DefaultParser := ParserChoice(Feedparser, None, None)

  /** Python truthiness of a setting: a non-empty string or a non-empty mapping. */
  predicate Truthy(p: ParserSetting) {
    match p
    case Selector(s) => s != ""
    case Mapping(m) => m != map[]
  }

  /** The `i`-th parser key is set to a truthy value. */
  predicate SetAt(settings: map<string, ParserSetting>, i: nat)
    requires i < |ParserKeys|
  {
    ParserKeys[i] in settings && Truthy(settings[ParserKeys[i]])
  }

  /** The parser a key names; the deprecated "jmes" names the jmespath parser. */
  function NameOf(key: string): ParserName {
    if key == "hext" then Hext
    else if key == "pandas" then Pandas
    else Jmespath
  }

  /**
   * The choice that a truthy setting under `key` makes: a string selects and
   * follows nothing; a mapping must hold "select", and "follow" defaults to `None`.
   */
  function ChoiceOf(key: string, p: ParserSetting): Result<ParserChoice, FeedError> {
    match p
    case Selector(s) => Ok(ParserChoice(NameOf(key), Some(s), None))
    case Mapping(m) =>
      if "select" !in m then Err(MissingSelect(key))
      else Ok(ParserChoice(NameOf(key), m["select"], if "follow" in m then m["follow"] else None))
  }

  /** The choice made by the parser keys from the `i`-th on. */
  function SelectFrom(settings: map<string, ParserSetting>, i: nat): Result<ParserChoice, FeedError>
    requires i <= |ParserKeys|
    decreases |ParserKeys| - i
  {
    if i == |ParserKeys| then Ok(DefaultParser)
    else if SetAt(settings, i) then ChoiceOf(ParserKeys[i], settings[ParserKeys[i]])
    else SelectFrom(settings, i + 1)
  }

  /** The parser choice of a feed configuration. */
  function Selected(settings: map<string, ParserSetting>): Result<ParserChoice, FeedError> {
    SelectFrom(settings, 0)
  }

  /** Keys without a truthy setting are passed over. */
  lemma {:induction false} SelectFromSkip(settings: map<string, ParserSetting>, i: nat, k: nat)
    requires i <= k <= |ParserKeys|
    requires forall j :: i <= j < k ==> !SetAt(settings, j)
    ensures SelectFrom(settings, i) == SelectFrom(settings, k)
    decreases k - i
  {
    if i < k {
      SelectFromSkip(settings, i + 1, k);
    }
  }

  /**
   * The first parser key with a truthy setting decides the parser; without one
   * the feed is read by feedparser with no selector and no follower.
   */
  lemma SelectedSpec(settings: map<string, ParserSetting>)
    ensures forall i :: (0 <= i < |ParserKeys| && SetAt(settings, i)
                         && (forall j :: 0 <= j < i ==> !SetAt(settings, j)))
                        ==> Selected(settings) == ChoiceOf(ParserKeys[i], settings[ParserKeys[i]])
    ensures (forall i :: 0 <= i < |ParserKeys| ==> !SetAt(settings, i)) ==> Selected(settings) == Ok(DefaultParser)
  {
    forall i | 0 <= i < |ParserKeys| && SetAt(settings, i) && (forall j :: 0 <= j < i ==> !SetAt(settings, j))
      ensures Selected(settings) == ChoiceOf(ParserKeys[i], settings[ParserKeys[i]])
    {
      SelectFromSkip(settings, 0, i);
    }
    if forall i :: 0 <= i < |ParserKeys| ==> !SetAt(settings, i) {
      SelectFromSkip(settings, 0, |ParserKeys|);
    }
  }

  /** The loop over the parser keys, stopping at the first truthy setting. */
  method SelectParser(settings: map<string, ParserSetting>) returns (r: Result<ParserChoice, FeedError>)
    ensures r == Selected(settings)
  {
    var i := 0;
    while i < |ParserKeys|
      invariant 0 <= i <= |ParserKeys|
      invariant Selected(settings) == SelectFrom(settings, i)
    {
      var key := ParserKeys[i];
      if key in settings && Truthy(settings[key]) {
        return ChoiceOf(key, settings[key]);
      }
      i := i + 1;
    }
    return Ok(DefaultParser);
  }

  /**
   * A string under the deprecated "jmes" key selects what the same string under
   * "jmespath" selects: the jmespath parser with that selector and no follower.
   */
  lemma JmesAsJmespath(settings: map<string, ParserSetting>, s: string)
    requires s != ""
    requires !SetAt(settings, 0) && !SetAt(settings, 1)
    ensures Selected(settings["jmes" := Selector(s)]) == Selected(settings["jmespath" := Selector(s)])
    ensures Selected(settings["jmes" := Selector(s)]) == Ok(ParserChoice(Jmespath, Some(s), None))
  {
    SelectedSpec(settings["jmes" := Selector(s)]);
    SelectedSpec(settings["jmespath" := Selector(s)]);
    assert !SetAt(settings["jmespath" := Selector(s)], 1);
  }

  /**
   * A non-empty mapping is truthy whatever it holds: without "select" it fails,
   * and `{"select": None}` selects with no selector.
   */
  lemma MappingSetting(settings: map<string, ParserSetting>, i: nat, m: map<string, Option<string>>)
    requires i < |ParserKeys| && m != map[]
    requires forall j :: 0 <= j < i ==> !SetAt(settings, j)
    ensures var chosen := Selected(settings[ParserKeys[i] := Mapping(m)]);
      && ("select" !in m ==> chosen == Err(MissingSelect(ParserKeys[i])))
      && ("select" in m && m["select"] == None && "follow" !in m ==> chosen == Ok(ParserChoice(NameOf(ParserKeys[i]), None, None)))
  {
    var s' := settings[ParserKeys[i] := Mapping(m)];
    forall j | 0 <= j < i ensures !SetAt(s', j) {
      assert !SetAt(settings, j);
      assert ParserKeys[j] != ParserKeys[i] by {
        if j == 0 {} else if j == 1 {} else {}
      }
    }
    SelectedSpec(s');
  }

  // ------------------------------------------------------------------------
  // Reading the URLs

  /** What the parser returns for one URL: its entries and the URLs to follow. */
  datatype ParseOutput = ParseOutput(entries: seq<Entry>, follow: seq<Url>)

  predicate NoDup<T(==)>(s: seq<T>) {
    forall i, j :: 0 <= i < j < |s| ==> s[i] != s[j]
  }

  lemma {:induction false} NoDupBound<T>(s: seq<T>, u: set<T>)
    requires NoDup(s)
    requires forall x :: x in s ==> x in u
    ensures |s| <= |u|
  {
    if s != [] {
      var n := |s| - 1;
      forall x | x in s[..n] ensures x in u - {s[n]} {
        var k :| 0 <= k < n && s[k] == x;
      }
      NoDupBound(s[..n], u - {s[n]});
    }
  }

  /**
   * `pending.update(xs - read)` on an ordered set: the URLs of `xs` that are
   * neither read nor pending are appended in order.
   */
  function Enqueue(pending: seq<Url>, xs: seq<Url>, read: seq<Url>): (r: seq<Url>)
    ensures |pending| <= |r| && r[..|pending|] == pending
    ensures forall u :: u in r <==> u in pending || (u in xs && u !in read)
    ensures NoDup(pending) ==> NoDup(r)
    ensures (forall u :: u in pending ==> u !in read) ==> forall u :: u in r ==> u !in read
    ensures forall k :: |pending| <= k < |r| ==> r[k] in xs
  {
    if xs == [] then pending
    else
      var q, x := Enqueue(pending, xs[..|xs| - 1], read), xs[|xs| - 1];
      assert xs == xs[..|xs| - 1] + [x];
      if x in read || x in q then q
      else
        assert (q + [x])[..|pending|] == q[..|pending|];
        q + [x]
  }

  /** The entries of the URLs read, concatenated in reading order. */
  function ConcatEntries(read: seq<Url>, parse: Url -> ParseOutput): seq<Entry> {
    if read == [] then []
    else ConcatEntries(read[..|read| - 1], parse) + parse(read[|read| - 1]).entries
  }

  lemma NoDupConcat<T>(a: seq<T>, b: seq<T>)
    ensures NoDup(a + b) <==> NoDup(a) && NoDup(b) && forall x :: x in a ==> x !in b
  {
    assert forall i :: 0 <= i < |a| ==> (a + b)[i] == a[i];
    assert forall i :: 0 <= i < |b| ==> (a + b)[|a| + i] == b[i];
    if NoDup(a) && NoDup(b) && forall x :: x in a ==> x !in b {
      forall i, j | 0 <= i < j < |a + b| ensures (a + b)[i] != (a + b)[j] {
        if j < |a| {
        } else if i >= |a| {
          assert (a + b)[i] == b[i - |a|] && (a + b)[j] == b[j - |a|];
        } else {
          assert (a + b)[i] in a && (a + b)[j] == b[j - |a|];
        }
      }
    }
  }

  /**
   * What holds between reads: `read` and `pending` together hold no URL twice
   * and start with the configured URLs; every configured URL is among them;
   * every URL a read URL asks to follow is among them; and each of them is
   * configured or asked for by a URL read before it.
   */
  ghost predicate CrawlInv(urls: seq<Url>, configured: seq<Url>, parse: Url -> ParseOutput,
                           universe: set<Url>, read: seq<Url>, pending: seq<Url>)
  {
    var all := read + pending;
    && NoDup(all)
    && |configured| <= |all| && all[..|configured|] == configured
    && (forall u :: u in urls ==> u in all)
    && (forall u :: u in all ==> u in universe)
    && (forall v, f :: v in read && f in parse(v).follow ==> f in all)
    && Provenance(urls, parse, read, all)
  }

  /** Each URL of `all` is configured or asked for by a URL of `read` that comes before it. */
  ghost predicate Provenance(urls: seq<Url>, parse: Url -> ParseOutput, read: seq<Url>, all: seq<Url>) {
    forall k :: 0 <= k < |all| ==>
      all[k] in urls || exists j :: 0 <= j < k && j < |read| && all[k] in parse(read[j]).follow
  }

  /** Reading the first pending URL keeps the provenance of the URLs so far, and gives its own to the URLs it queues. */
  lemma ProvenanceStep(urls: seq<Url>, parse: Url -> ParseOutput, read: seq<Url>, pending: seq<Url>, all': seq<Url>)
    requires pending != [] && Provenance(urls, parse, read, read + pending)
    requires |read + pending| <= |all'| && all'[..|read + pending|] == read + pending
    requires forall k :: |read + pending| <= k < |all'| ==> all'[k] in parse(pending[0]).follow
    ensures Provenance(urls, parse, read + [pending[0]], all')
  {
    var all, read' := read + pending, read + [pending[0]];
    forall k | 0 <= k < |all'|
      ensures all'[k] in urls || exists j :: 0 <= j < k && j < |read'| && all'[k] in parse(read'[j]).follow
    {
      if k < |all| {
        assert all'[k] == all[k];
        if all[k] !in urls {
          var j :| 0 <= j < k && j < |read| && all[k] in parse(read[j]).follow;
          assert read'[j] == read[j];
        }
      } else {
        assert read'[|read|] == pending[0];
      }
    }
  }

  /** Reading the first pending URL and queueing what it asks to follow keeps `CrawlInv`. */
  lemma CrawlStep(urls: seq<Url>, configured: seq<Url>, parse: Url -> ParseOutput,
                  universe: set<Url>, read: seq<Url>, pending: seq<Url>)
    requires CrawlInv(urls, configured, parse, universe, read, pending)
    requires pending != []
    requires forall u :: u in universe ==> forall f :: f in parse(u).follow ==> f in universe
    ensures |read| < |universe|
    ensures var read' := read + [pending[0]];
      CrawlInv(urls, configured, parse, universe, read', Enqueue(pending[1..], parse(pending[0]).follow, read'))
  {
    var url := pending[0];
    var all := read + pending;
    var read' := read + [url];
    var rest := pending[1..];
    assert read' + rest == all;
    NoDupConcat(read', rest);
    NoDupConcat(read, [url]);
    NoDupBound(read', universe);
    var follow := parse(url).follow;
    var pending' := Enqueue(rest, follow, read');
    var all' := read' + pending';
    NoDupConcat(read', pending');
    assert all'[..|all|] == all;
    assert forall u :: u in all ==> u in all';
    forall u | u in all' ensures u in universe {
      if u !in all {
        assert u in follow;
      }
    }
    QueuedProvenance(urls, parse, read, pending);
  }

  /** The URLs the first pending URL queues take their provenance from it. */
  lemma QueuedProvenance(urls: seq<Url>, parse: Url -> ParseOutput, read: seq<Url>, pending: seq<Url>)
    requires pending != [] && Provenance(urls, parse, read, read + pending)
    ensures var read' := read + [pending[0]];
      Provenance(urls, parse, read', read' + Enqueue(pending[1..], parse(pending[0]).follow, read'))
  {
    var all, read' := read + pending, read + [pending[0]];
    var pending' := Enqueue(pending[1..], parse(pending[0]).follow, read');
    var all' := read' + pending';
    assert read' + pending[1..] == all;
    assert all'[..|all|] == all;
    forall k | |all| <= k < |all'| ensures all'[k] in parse(pending[0]).follow {
      assert all'[k] == pending'[k - |read'|];
    }
    ProvenanceStep(urls, parse, read, pending, all');
  }

  /**
   * The URLs read for the configured `urls`: none twice; the configured ones
   * first, in order without repeats; every configured URL and every URL a read
   * URL asks to follow; and nothing else: each URL read is configured or asked
   * for by a URL read before it, so no follow cycle can support itself.
   */
  ghost predicate Crawled(urls: seq<Url>, parse: Url -> ParseOutput, read: seq<Url>) {
    && NoDup(read)
    && (var configured := DedupeBy(urls, (u: Url) => u);
        |configured| <= |read| && read[..|configured|] == configured)
    && (forall u :: u in urls ==> u in read)
    && (forall v, f :: v in read && f in parse(v).follow ==> f in read)
    && Provenance(urls, parse, read, read)
  }

  /** A worklist with nothing pending has crawled exactly the URLs read. */
  lemma CrawlDone(urls: seq<Url>, parse: Url -> ParseOutput, universe: set<Url>, read: seq<Url>)
    requires CrawlInv(urls, DedupeBy(urls, (u: Url) => u), parse, universe, read, [])
    ensures Crawled(urls, parse, read)
  {
    assert read + [] == read;
  }

  /**
   * Two URLs that ask to follow each other, and that no configured URL leads
   * to, are not read: only `a` is crawled from `[a]`.
   */
  lemma CrawledExcludesUnreachableCycle(parse: Url -> ParseOutput)
    requires parse("a").follow == []
    requires parse("x").follow == ["y"] && parse("y").follow == ["x"]
    ensures Crawled(["a"], parse, ["a"])
    ensures !Crawled(["a"], parse, ["a", "x", "y"])
  {
    CrawledSingle("a", parse);
    var read := ["a", "x", "y"];
    assert read[1] !in ["a"] && read[1] !in parse(read[0]).follow;
    ProvenanceFailsAt(["a"], parse, read, read, 1);
  }

  /** A configured URL that asks to follow nothing is crawled alone. */
  lemma CrawledSingle(a: Url, parse: Url -> ParseOutput)
    requires parse(a).follow == []
    ensures Crawled([a], parse, [a])
  {
    DedupeOne(a, (u: Url) => u);
  }

  /** A URL that is not configured and that no earlier read URL asks for breaks `Provenance`. */
  lemma ProvenanceFailsAt(urls: seq<Url>, parse: Url -> ParseOutput, read: seq<Url>, all: seq<Url>, k: nat)
    requires k < |all| && all[k] !in urls
    requires forall j :: 0 <= j < k && j < |read| ==> all[k] !in parse(read[j]).follow
    ensures !Provenance(urls, parse, read, all)
  {
  }

  /**
   * Reads the configured URLs in order, then every URL the parser asks to
   * follow that has not been read yet, each exactly once. `universe` is a
   * finite set holding every URL the parser can ask for; it bounds the loop.
   */
  method ReadUrls(urls: seq<Url>, parse: Url -> ParseOutput, ghost universe: set<Url>)
    returns (entries: seq<Entry>, read: seq<Url>, numUrlsRead: nat)
    requires forall u :: u in urls ==> u in universe
    requires forall u :: u in universe ==> forall f :: f in parse(u).follow ==> f in universe
    ensures Crawled(urls, parse, read)
    ensures entries == ConcatEntries(read, parse)
    ensures numUrlsRead == |read|
  {
    var id := (u: Url) => u;
    var pending := DedupeBy(urls, id);
    ghost var configured := pending;
    read := [];
    entries := [];
    assert CrawlInv(urls, configured, parse, universe, read, pending) by {
      assert KeySet(pending, id) == KeySet(urls, id);
      forall u | u in urls ensures u in pending {
        var k :| 0 <= k < |urls| && urls[k] == u;
        assert id(urls[k]) in KeySet(urls, id);
      }
      assert read + pending == pending;
    }
    while pending != []
      invariant CrawlInv(urls, configured, parse, universe, read, pending)
      invariant entries == ConcatEntries(read, parse)
      decreases |universe| - |read|
    {
      CrawlStep(urls, configured, parse, universe, read, pending);
      var url := pending[0];
      ghost var before := read;
      read := read + [url];
      pending := pending[1..];
      var out := parse(url);
      entries := entries + out.entries;
      assert read[..|read| - 1] == before;
      pending := Enqueue(pending, out.follow, read);
    }
    CrawlDone(urls, parse, universe, read);
    numUrlsRead := |read|;
  }

  // ------------------------------------------------------------------------
  // Cleaning the entries up

  /** An abstract regular-expression substitution or formatter result per entry. */
  datatype Format = Format(title: Entry -> Option<string>, url: Entry -> Option<string>)

  /** The feed settings `_process_entries` reads. */
  datatype ProcessConfig = ProcessConfig(
    blacklist: bool,                     // a non-empty blacklist is configured
    whitelist: bool,                     // a non-empty whitelist is configured
    https: bool,
    titleSub: Option<string -> string>,
    urlSub: Option<string -> string>,
    format: Option<Format>)              // None when no format is configured

  /** Text helpers whose code is not part of this model. */
  datatype TextTools = TextTools(htmlToText: string -> string, shortenTitle: string -> string)

  const HttpPrefix := "http://"
  const HttpsPrefix := "https://"
  const QuoteBegin: char := '“'
  const QuoteEnd: char := '”'

  /** A URL starting with `http://` has that first occurrence replaced by `https://`. */
  function HttpsUrl(u: Url): Url {
    if StartsWith(u, HttpPrefix) then ReplaceFirst(u, HttpPrefix, HttpsPrefix) else u
  }

  /** Only a leading `http://` is rewritten, to `https://`; every other URL is unchanged. */
  lemma HttpsUrlRewritesScheme(u: Url)
    ensures StartsWith(u, HttpPrefix) ==> HttpsUrl(u) == HttpsPrefix + u[|HttpPrefix|..]
    ensures !StartsWith(u, HttpPrefix) ==> HttpsUrl(u) == u
    ensures !StartsWith(HttpsUrl(u), HttpPrefix)
  {
    if StartsWith(u, HttpPrefix) {
      assert OccursAt(u, HttpPrefix, 0);
      assert Find(u, HttpPrefix) == 0;
      assert (HttpsPrefix + u[|HttpPrefix|..])[4] == 's' && HttpPrefix[4] == ':';
    }
  }

  /** `u.strip().replace(" ", "%20")`. */
  function EscapedUrl(u: Url): Url {
    ReplaceChar(Strip(u), ' ', "%20")
  }

  lemma StripOfStripped(s: string)
    requires s == [] || (!IsSpace(s[0]) && !IsSpace(s[|s| - 1]))
    ensures Strip(s) == s
  {
  }

  /** An escaped URL has no space and no whitespace at either end, and escaping it again changes nothing. */
  lemma EscapedUrlClean(u: Url)
    ensures var r := EscapedUrl(u);
      ' ' !in r && (r == [] || (!IsSpace(r[0]) && !IsSpace(r[|r| - 1])))
    ensures EscapedUrl(EscapedUrl(u)) == EscapedUrl(u)
  {
    var s := Strip(u);
    var r := EscapedUrl(u);
    if s != [] {
      assert s[0] != ' ' && s[|s| - 1] != ' ';
      assert !IsSpace('%') && !IsSpace('0');
    }
    StripOfStripped(r);
  }

  /**
   * A title longer than two characters wrapped in curly quotes loses them,
   * unless the text inside holds a curly quote of either kind.
   */
  function UnquotedTitle(t: string): string {
    if |t| > 2 && t[0] == QuoteBegin && t[|t| - 1] == QuoteEnd then
      var inner := t[1..|t| - 1];
      if QuoteBegin !in inner && QuoteEnd !in inner then inner else t
    else t
  }

  lemma UnquotedTitleSpec(t: string)
    ensures var r := UnquotedTitle(t);
      (r != t ==> [QuoteBegin] + r + [QuoteEnd] == t && |r| > 0 && QuoteBegin !in r && QuoteEnd !in r)
      && (r == t ==> !(|t| > 2 && t[0] == QuoteBegin && t[|t| - 1] == QuoteEnd
                       && QuoteBegin !in t[1..|t| - 1] && QuoteEnd !in t[1..|t| - 1]))
    ensures UnquotedTitle(UnquotedTitle(t)) == UnquotedTitle(t)
  {
    var r := UnquotedTitle(t);
    if r != t {
      assert [QuoteBegin] + r + [QuoteEnd] == t;
      assert r[0] != QuoteBegin by { assert r[0] in r; }
    }
  }

  /**
   * A title without `". "` once trailing whitespace is removed is a single
   * sentence and loses its trailing whitespace and trailing periods.
   */
  function TrimmedTitle(t: string): string {
    var s := RStrip(t);
    if !Contains(s, ". ") then RStripChar(s, '.') else t
  }

  lemma TrimmedTitleSpec(t: string)
    ensures var r := TrimmedTitle(t);
      (Contains(RStrip(t), ". ") ==> r == t)
      && (!Contains(RStrip(t), ". ") ==>
            StartsWith(t, r) && (r == [] || r[|r| - 1] != '.')
            && |r| <= |RStrip(t)|
            && (forall k :: |r| <= k < |RStrip(t)| ==> t[k] == '.')
            && (forall k :: |RStrip(t)| <= k < |t| ==> IsSpace(t[k])))
  {
    var s := RStrip(t);
    if !Contains(s, ". ") {
      var r := RStripChar(s, '.');
      assert r == t[..|r|];
      forall k | |r| <= k < |s| ensures t[k] == '.' {
        assert s[k] == t[k];
      }
    }
  }

  /** A title of two or more words with no lower-case letter and some upper-case one is capitalised. */
  function DecapitalisedTitle(t: string): string {
    if |Words(t)| > 1 && IsUpper(t) then Capitalize(t) else t
  }

  lemma CapitalizeIdempotent(t: string)
    ensures Capitalize(Capitalize(t)) == Capitalize(t)
  {
    var c := Capitalize(t);
    if c != [] {
      assert Capitalize(c)[0] == c[0];
    }
  }

  lemma CapitalizeKeepsWords(t: string)
    ensures |Words(Capitalize(t))| == |Words(t)|
  {
    assert forall k :: 0 <= k < |t| ==> (IsSpace(Capitalize(t)[k]) <==> IsSpace(t[k]));
    SameSpacesSameWords(t, Capitalize(t));
  }

  /** Two strings with whitespace at the same positions split into the same number of words. */
  lemma {:induction false} SameSpacesSameWords(a: string, b: string)
    requires |a| == |b|
    requires forall k :: 0 <= k < |a| ==> (IsSpace(a[k]) <==> IsSpace(b[k]))
    ensures |Words(a)| == |Words(b)|
    decreases |a|
  {
    if a == [] {
    } else if IsSpace(a[0]) {
      SameSpacesSameWords(a[1..], b[1..]);
    } else {
      var j := WordEnd(a, 0);
      var j' := WordEnd(b, 0);
      assert j == j';
      SameSpacesSameWords(a[j..], b[j..]);
    }
  }

  /**
   * A capitalised title keeps its first character's case upper and has no
   * upper-case letter after it; capitalising again changes nothing.
   */
  lemma DecapitalisedTitleSpec(t: string)
    ensures var r := DecapitalisedTitle(t);
      (r != t ==> |Words(t)| > 1 && IsUpper(t) && |r| == |t|
                  && forall k :: 1 <= k < |r| ==> !IsAsciiUpper(r[k]))
      && (!(|Words(t)| > 1 && IsUpper(t)) ==> r == t)
      && (|Words(t)| > 1 && IsUpper(t) ==>
            |r| == |t| > 0 && r[0] == t[0]
            && forall k :: 1 <= k < |r| ==> r[k] == LowerChar(t[k]))
    ensures DecapitalisedTitle(DecapitalisedTitle(t)) == DecapitalisedTitle(t)
  {
    if |Words(t)| > 1 && IsUpper(t) {
      CapitalizeIdempotent(t);
      CapitalizeKeepsWords(t);
    }
  }

  /** Each step of `_process_entries` after filtering, for one entry. */
  function HttpsStep(e: Entry): Entry { e.(longUrl := HttpsUrl(e.longUrl)) }

  function SubTitleStep(f: string -> string): Entry -> Entry {
    (e: Entry) => e.(title := f(e.title))
  }

  function SubUrlStep(f: string -> string): Entry -> Entry {
    (e: Entry) => e.(longUrl := f(e.longUrl))
  }

  /** On a formatter exception the field is left as it was; both formatters see the entry before either runs. */
  function FormatStep(fmt: Format): Entry -> Entry {
    (e: Entry) => e.(title := fmt.title(e).GetOr(e.title), longUrl := fmt.url(e).GetOr(e.longUrl))
  }

  function EscapeStep(e: Entry): Entry { e.(longUrl := EscapedUrl(e.longUrl)) }

  function HtmlStep(h: string -> string): Entry -> Entry {
    (e: Entry) => e.(title := h(e.title), summary := h(e.summary))
  }

  function UnquoteStep(e: Entry): Entry { e.(title := UnquotedTitle(e.title)) }

  function TrimStep(e: Entry): Entry { e.(title := TrimmedTitle(e.title)) }

  function DecapitaliseStep(e: Entry): Entry { e.(title := DecapitalisedTitle(e.title)) }

  function ShortenStep(f: string -> string): Entry -> Entry {
    (e: Entry) => e.(title := f(e.title))
  }

  /** The steps before URL escaping, for one entry: HTTPS, substitutions and formatting. */
  function Prepared(cfg: ProcessConfig, e: Entry): (r: Entry)
    ensures r == e.(title := r.title, longUrl := r.longUrl)
  {
    var e1 := if cfg.https then HttpsStep(e) else e;
    var e2 := if cfg.titleSub.Some? then SubTitleStep(cfg.titleSub.value)(e1) else e1;
    var e3 := if cfg.urlSub.Some? then SubUrlStep(cfg.urlSub.value)(e2) else e2;
    if cfg.format.Some? then FormatStep(cfg.format.value)(e3) else e3
  }

  /** The steps after URL escaping, for one entry; they change only the title and the summary. */
  function Finished(tools: TextTools, e: Entry): (r: Entry)
    ensures r == e.(title := r.title, summary := r.summary)
  {
    ShortenStep(tools.shortenTitle)(DecapitaliseStep(TrimStep(UnquoteStep(HtmlStep(tools.htmlToText)(e)))))
  }

  /** All clean-up steps applied to one entry, in the order the code runs them. */
  function Cleaned(cfg: ProcessConfig, tools: TextTools, e: Entry): Entry {
    Finished(tools, EscapeStep(Prepared(cfg, e)))
  }

  /** A cleaned entry has an escaped URL and the filter fields it had before. */
  lemma CleanedUrl(cfg: ProcessConfig, tools: TextTools, e: Entry)
    ensures var c := Cleaned(cfg, tools, e);
      ' ' !in c.longUrl && (c.longUrl == [] || (!IsSpace(c.longUrl[0]) && !IsSpace(c.longUrl[|c.longUrl| - 1])))
    ensures Cleaned(cfg, tools, e).blacklisted == e.blacklisted
    ensures Cleaned(cfg, tools, e).whitelistMatch == e.whitelistMatch
    ensures Cleaned(cfg, tools, e).matchingTitleSearchPattern == e.matchingTitleSearchPattern
  {
    EscapedUrlClean(Prepared(cfg, e).longUrl);
  }

  /** A whitelisted entry records the matched pattern when the pattern's key is "title". */
  function Marked(e: Entry): Entry
    requires e.whitelistMatch.Some?
  {
    var m := e.whitelistMatch.value;
    if m.key == "title" then e.(matchingTitleSearchPattern := Some(m.pattern)) else e
  }

  function NotBlacklisted(e: Entry): bool { !e.blacklisted }

  function IsWhitelisted(e: Entry): bool { e.whitelistMatch.Some? }

  /** The whitelisted entries, in order, marked as the whitelist loop marks them. */
  function Whitelisted(s: seq<Entry>): (r: seq<Entry>)
    ensures |r| <= |s|
  {
    if s == [] then []
    else
      var init, x := Whitelisted(s[..|s| - 1]), s[|s| - 1];
      init + (if x.whitelistMatch.Some? then [Marked(x)] else [])
  }

  /** Position by position, the whitelist gives the whitelisted entries, marked. */
  lemma {:induction false} WhitelistedAt(s: seq<Entry>)
    ensures var r, k := Whitelisted(s), Keep(s, IsWhitelisted);
      && |r| == |k|
      && (forall i :: 0 <= i < |r| ==> IsWhitelisted(k[i]) && r[i] == Marked(k[i]))
    decreases |s|
  {
    if s != [] {
      var n := |s| - 1;
      WhitelistedAt(s[..n]);
      assert Keep(s, IsWhitelisted) == Keep(s[..n], IsWhitelisted) + (if IsWhitelisted(s[n]) then [s[n]] else []);
    }
  }

  /**
   * The whitelist keeps exactly the whitelisted entries, in order, each marked:
   * an entry matched on "title" records its pattern, any other is kept as it was.
   */
  lemma WhitelistedSpec(s: seq<Entry>)
    ensures var r := Whitelisted(s);
      && (forall e :: e in r ==> e.whitelistMatch.Some?)
      && (forall e :: e in r ==> (e.matchingTitleSearchPattern.Some? && e.whitelistMatch.value.key == "title")
                                 || (e in s && e.whitelistMatch.value.key != "title"))
      && (forall e :: e in s && e.whitelistMatch.Some? ==> Marked(e) in r)
      && (forall e :: e in r ==> exists d :: d in s && d.whitelistMatch.Some? && e == Marked(d))
      && |r| == |Keep(s, IsWhitelisted)|
      && (forall i :: 0 <= i < |r| ==> IsWhitelisted(Keep(s, IsWhitelisted)[i]) && r[i] == Marked(Keep(s, IsWhitelisted)[i]))
  {
    var r, k := Whitelisted(s), Keep(s, IsWhitelisted);
    WhitelistedAt(s);
    forall e | e in r
      ensures e.whitelistMatch.Some? && exists d :: d in s && d.whitelistMatch.Some? && e == Marked(d)
      ensures (e.matchingTitleSearchPattern.Some? && e.whitelistMatch.value.key == "title")
              || (e in s && e.whitelistMatch.value.key != "title")
    {
      var i :| 0 <= i < |r| && r[i] == e;
      assert k[i] in k;
    }
    forall e | e in s && e.whitelistMatch.Some? ensures Marked(e) in r {
      assert IsWhitelisted(e) && e in k;
      var i :| 0 <= i < |k| && k[i] == e;
      assert r[i] == Marked(e);
    }
  }

  /** The whitelist keeps order: the marked entries of `a` come before those of `b`. */
  lemma {:induction false} WhitelistedAppend(a: seq<Entry>, b: seq<Entry>)
    ensures Whitelisted(a + b) == Whitelisted(a) + Whitelisted(b)
    decreases |b|
  {
    if b != [] {
      var n := |b| - 1;
      assert (a + b)[..|a + b| - 1] == a + b[..n];
      WhitelistedAppend(a, b[..n]);
    } else {
      assert a + b == a;
    }
  }

  /** The entries both filters let through, in order. */
  function Filtered(cfg: ProcessConfig, s: seq<Entry>): seq<Entry> {
    var b := if cfg.blacklist then Keep(s, NotBlacklisted) else s;
    if cfg.whitelist then Whitelisted(b) else b
  }

  /** What `_process_entries` returns. */
  function Processed<K(==)>(cfg: ProcessConfig, tools: TextTools, key: Entry -> K, s: seq<Entry>): seq<Entry> {
    DedupeBy(MapSeq((e: Entry) => Cleaned(cfg, tools, e), Filtered(cfg, s)), key)
  }

  /**
   * The filters keep no blacklisted entry and only whitelisted ones; each entry
   * they let through is an input entry, marked when the whitelist is on; and
   * every input entry that passes both is let through.
   */
  lemma FilteredSpec(cfg: ProcessConfig, s: seq<Entry>)
    ensures |Filtered(cfg, s)| <= |s|
    ensures cfg.blacklist ==> forall d :: d in Filtered(cfg, s) ==> !d.blacklisted
    ensures cfg.whitelist ==> forall d :: d in Filtered(cfg, s) ==> d.whitelistMatch.Some?
    ensures !cfg.whitelist ==> forall d :: d in Filtered(cfg, s) ==> d in s
    ensures cfg.whitelist ==> forall d :: d in Filtered(cfg, s) ==>
      exists e :: e in s && e.whitelistMatch.Some? && d == Marked(e)
    ensures forall e :: e in s && (cfg.blacklist ==> !e.blacklisted) && (cfg.whitelist ==> e.whitelistMatch.Some?) ==>
      (cfg.whitelist ==> Marked(e) in Filtered(cfg, s)) && (!cfg.whitelist ==> e in Filtered(cfg, s))
  {
    var b := if cfg.blacklist then Keep(s, NotBlacklisted) else s;
    if cfg.whitelist {
      WhitelistedSpec(b);
      forall d | d in Filtered(cfg, s)
        ensures (cfg.blacklist ==> !d.blacklisted) && exists e :: e in s && e.whitelistMatch.Some? && d == Marked(e)
      {
        var d' :| d' in b && d'.whitelistMatch.Some? && d == Marked(d');
      }
      forall e | e in s && (cfg.blacklist ==> !e.blacklisted) && e.whitelistMatch.Some?
        ensures Marked(e) in Filtered(cfg, s)
      {
        assert cfg.blacklist ==> NotBlacklisted(e);
        assert e in b;
      }
    } else {
      forall e | e in s && (cfg.blacklist ==> !e.blacklisted) ensures e in Filtered(cfg, s) {
        assert cfg.blacklist ==> NotBlacklisted(e);
      }
    }
  }

  /** The filters keep order: what passes from `a` comes before what passes from `b`. */
  lemma FilteredAppend(cfg: ProcessConfig, a: seq<Entry>, b: seq<Entry>)
    ensures Filtered(cfg, a + b) == Filtered(cfg, a) + Filtered(cfg, b)
  {
    KeepAppend(a, b, NotBlacklisted);
    var ka, kb := if cfg.blacklist then Keep(a, NotBlacklisted) else a, if cfg.blacklist then Keep(b, NotBlacklisted) else b;
    WhitelistedAppend(ka, kb);
  }

  /** Each processed entry is the cleaned form of an entry that passed the filters. */
  lemma ProcessedOrigin<K>(cfg: ProcessConfig, tools: TextTools, key: Entry -> K, s: seq<Entry>, e: Entry)
    requires e in Processed(cfg, tools, key, s)
    ensures exists d :: d in Filtered(cfg, s) && e == Cleaned(cfg, tools, d)
  {
    var f := Filtered(cfg, s);
    var c := MapSeq((e: Entry) => Cleaned(cfg, tools, e), f);
    var r := DedupeBy(c, key);
    var i :| 0 <= i < |r| && r[i] == e;
    var j := IndexOfKey(c, key, key(r[i]));
    assert f[j] in f && e == Cleaned(cfg, tools, f[j]);
  }

  /**
   * The processed entries have distinct keys and clean URLs; each is the
   * cleaned form of an entry that passed the filters; every entry that passed
   * has its key present.
   */
  lemma ProcessedSpec<K>(cfg: ProcessConfig, tools: TextTools, key: Entry -> K, s: seq<Entry>)
    ensures var r := Processed(cfg, tools, key, s);
      DistinctKeys(r, key)
      && |r| <= |s|
      && (forall e :: e in r ==> ' ' !in e.longUrl)
      && (forall e :: e in r ==> exists d :: d in Filtered(cfg, s) && e == Cleaned(cfg, tools, d))
      && (forall d :: d in Filtered(cfg, s) ==> key(Cleaned(cfg, tools, d)) in KeySet(r, key))
    ensures cfg.blacklist ==> forall e :: e in Processed(cfg, tools, key, s) ==> !e.blacklisted
    ensures cfg.whitelist ==> forall e :: e in Processed(cfg, tools, key, s) ==> e.whitelistMatch.Some?
  {
    var f := Filtered(cfg, s);
    var c := MapSeq((e: Entry) => Cleaned(cfg, tools, e), f);
    var r := DedupeBy(c, key);
    FilteredSpec(cfg, s);
    forall e | e in r
      ensures ' ' !in e.longUrl && exists d :: d in f && e == Cleaned(cfg, tools, d)
      ensures (cfg.blacklist ==> !e.blacklisted) && (cfg.whitelist ==> e.whitelistMatch.Some?)
    {
      ProcessedOrigin(cfg, tools, key, s, e);
      var d :| d in f && e == Cleaned(cfg, tools, d);
      CleanedUrl(cfg, tools, d);
    }
    forall d | d in f ensures key(Cleaned(cfg, tools, d)) in KeySet(r, key) {
      var j :| 0 <= j < |f| && f[j] == d;
      assert key(c[j]) in KeySet(c, key);
    }
  }

  /**
   * `_process_entries`: filters by blacklist and whitelist (returning at once
   * when nothing is left), runs each clean-up step over all entries, and
   * removes duplicates by `key`.
   */
  method ProcessEntries<K(==)>(entries: seq<Entry>, cfg: ProcessConfig, tools: TextTools, key: Entry -> K)
    returns (r: seq<Entry>)
    ensures r == Processed(cfg, tools, key, entries)
  {
    var es := entries;
    if cfg.blacklist {
      es := Keep(es, NotBlacklisted);
      if es == [] {
        return [];
      }
    }
    if cfg.whitelist {
      es := WhitelistEntries(es);
      if es == [] {
        return [];
      }
    }
    ghost var kept := es;
    assert kept == Filtered(cfg, entries);
    es := PrepareEntries(es, cfg);
    es := UpdateEach(es, EscapeStep);
    es := FinishEntries(es, tools);
    assert es == MapSeq((e: Entry) => Cleaned(cfg, tools, e), kept);
    r := DedupeBy(es, key);
  }

  /**
   * The whitelist loop of `_process_entries`: keeps the entries that matched a
   * whitelist pattern, recording the pattern on those whose key is "title".
   */
  method WhitelistEntries(es: seq<Entry>) returns (whitelisted: seq<Entry>)
    ensures whitelisted == Whitelisted(es)
  {
    whitelisted := [];
    var i := 0;
    while i < |es|
      invariant 0 <= i <= |es|
      invariant whitelisted == Whitelisted(es[..i])
    {
      var entry := es[i];
      if entry.whitelistMatch.Some? {
        whitelisted := whitelisted + [Marked(entry)];
      }
      assert es[..i + 1][..i] == es[..i];
      i := i + 1;
    }
    assert es[..i] == es;
  }

  /** The HTTPS, substitution and formatting loops of `_process_entries`. */
  method PrepareEntries(es: seq<Entry>, cfg: ProcessConfig) returns (r: seq<Entry>)
    ensures |r| == |es| && forall i :: 0 <= i < |es| ==> r[i] == Prepared(cfg, es[i])
  {
    r := es;
    if cfg.https {
      r := UpdateEach(r, HttpsStep);
    }
    ghost var r1 := r;
    if cfg.titleSub.Some? {
      r := UpdateEach(r, SubTitleStep(cfg.titleSub.value));
    }
    ghost var r2 := r;
    if cfg.urlSub.Some? {
      r := UpdateEach(r, SubUrlStep(cfg.urlSub.value));
    }
    ghost var r3 := r;
    if cfg.format.Some? {
      r := UpdateEach(r, FormatStep(cfg.format.value));
    }
    forall i | 0 <= i < |es| ensures r[i] == Prepared(cfg, es[i]) {
      var e1 := if cfg.https then HttpsStep(es[i]) else es[i];
      assert r1[i] == e1;
      var e2 := if cfg.titleSub.Some? then SubTitleStep(cfg.titleSub.value)(e1) else e1;
      assert r2[i] == e2;
      var e3 := if cfg.urlSub.Some? then SubUrlStep(cfg.urlSub.value)(e2) else e2;
      assert r3[i] == e3;
    }
  }

  /** The loops of `_process_entries` from HTML stripping to title shortening. */
  method FinishEntries(es: seq<Entry>, tools: TextTools) returns (r: seq<Entry>)
    ensures |r| == |es| && forall i :: 0 <= i < |es| ==> r[i] == Finished(tools, es[i])
  {
    var r1 := UpdateEach(es, HtmlStep(tools.htmlToText));
    var r2 := UpdateEach(r1, UnquoteStep);
    var r3 := UpdateEach(r2, TrimStep);
    var r4 := UpdateEach(r3, DecapitaliseStep);
    r := UpdateEach(r4, ShortenStep(tools.shortenTitle));
  }

  /** One `for entry in entries:` loop that updates each entry in place with `f`. */
  method UpdateEach(es: seq<Entry>, f: Entry -> Entry) returns (r: seq<Entry>)
    ensures |r| == |es|
    ensures forall i :: 0 <= i < |es| ==> r[i] == f(es[i])
  {
    r := es;
    var i := 0;
    while i < |r|
      invariant 0 <= i <= |r| == |es|
      invariant forall j :: 0 <= j < i ==> r[j] == f(es[j])
      invariant forall j :: i <= j < |r| ==> r[j] == es[j]
    {
      r := r[i := f(r[i])];
      i := i + 1;
    }
  }

  /** The parser run with the chosen settings, as a function of the URL. */
  function ParserFor(parser: (ParserChoice, Url) -> ParseOutput, choice: ParserChoice): Url -> ParseOutput {
    (u: Url) => parser(choice, u)
  }

  /**
   * `_read_entries`: chooses the parser, reads the URLs with it, and returns
   * the processed entries with the number of URLs read. `read` is the URLs
   * read, in order.
   */
  method ReadEntries<K(==)>(
    settings: map<string, ParserSetting>, urls: seq<Url>,
    parser: (ParserChoice, Url) -> ParseOutput, ghost universe: set<Url>,
    cfg: ProcessConfig, tools: TextTools, key: Entry -> K)
    returns (r: Result<(seq<Entry>, nat), FeedError>, ghost read: seq<Url>)
    requires forall u :: u in urls ==> u in universe
    requires forall c, u :: u in universe ==> forall f :: f in parser(c, u).follow ==> f in universe
    ensures Selected(settings).Err? ==> r == Err(Selected(settings).error)
    ensures Selected(settings).Ok? ==>
      var parse := ParserFor(parser, Selected(settings).value);
      && Crawled(urls, parse, read)
      && r == Ok((Processed(cfg, tools, key, ConcatEntries(read, parse)), |read|))
    ensures r.Ok? ==> DistinctKeys(r.value.0, key) && r.value.1 >= |DedupeBy(urls, (u: Url) => u)|
    ensures r.Ok? ==> forall e :: e in r.value.0 ==> ' ' !in e.longUrl
  {
    var choice := SelectParser(settings);
    if choice.Err? {
      return Err(choice.error), [];
    }
    var parse := ParserFor(parser, choice.value);
    var entries, numUrlsRead;
    entries, read, numUrlsRead := ReadUrls(urls, parse, universe);
    var processed := ProcessEntries(entries, cfg, tools, key);
    ProcessedSpec(cfg, tools, key, entries);
    return Ok((processed, numUrlsRead)), read;
  }

  // ------------------------------------------------------------------------
  // Choosing the entries to post

  /** The database calls `unposted_entries` makes; they return the long URLs not yet posted. */
  datatype Database = Database(
    selectUnpostedForChannel: seq<Url> -> seq<Url>,
    selectUnpostedForChannelFeed: seq<Url> -> seq<Url>)

  function LongUrls(entries: seq<Entry>): seq<Url> {
    MapSeq((e: Entry) => e.longUrl, entries)
  }

  /** `dedup or DEDUP_STRATEGY_DEFAULT`: an absent or empty setting falls back to the default. */
  function DedupStrategy(dedup: Option<string>, default: string): string {
    if dedup.Some? && dedup.value != "" then dedup.value else default
  }

  /** The long URLs the database reports as unposted under the strategy. */
  function UnpostedUrls(db: Database, strategy: string, urls: seq<Url>): Result<set<Url>, FeedError> {
    if strategy == "channel" then Ok(set u | u in db.selectUnpostedForChannel(urls))
    else if strategy == "feed" then Ok(set u | u in db.selectUnpostedForChannelFeed(urls))
    else Err(UnknownDedupStrategy(strategy))
  }

  /** The entries whose long URL is in `selected`. */
  function UrlIn(selected: set<Url>): Entry -> bool {
    (e: Entry) => e.longUrl in selected
  }

  /**
   * `unposted_entries`: the entries, in order, whose long URL the database
   * reports as unposted; a strategy other than "channel" or "feed" fails.
   */
  function UnpostedEntries(entries: seq<Entry>, dedup: Option<string>, defaultStrategy: string, db: Database)
    : (r: Result<seq<Entry>, FeedError>)
    ensures var strategy := DedupStrategy(dedup, defaultStrategy);
      r.Ok? <==> (strategy == "channel" || strategy == "feed")
    ensures r.Ok? ==> |r.value| <= |entries|
    ensures r.Ok? ==> var selected := UnpostedUrls(db, DedupStrategy(dedup, defaultStrategy), LongUrls(entries)).value;
      forall e :: e in r.value <==> e in entries && e.longUrl in selected
    ensures r.Ok? ==> var selected := UnpostedUrls(db, DedupStrategy(dedup, defaultStrategy), LongUrls(entries)).value;
      r.value == Keep(entries, UrlIn(selected))
  {
    var strategy := DedupStrategy(dedup, defaultStrategy);
    match UnpostedUrls(db, strategy, LongUrls(entries))
    case Err(e) => Err(e)
    case Ok(selected) => Ok(Keep(entries, UrlIn(selected)))
  }

  /**
   * Unposted entries keep the order they have among the feed's entries: for
   * entries `a + b`, the unposted ones of `a` come first, then those of `b`.
   */
  lemma UnpostedEntriesOrder(a: seq<Entry>, b: seq<Entry>, dedup: Option<string>, defaultStrategy: string, db: Database)
    requires UnpostedEntries(a + b, dedup, defaultStrategy, db).Ok?
    ensures var selected := UnpostedUrls(db, DedupStrategy(dedup, defaultStrategy), LongUrls(a + b)).value;
      UnpostedEntries(a + b, dedup, defaultStrategy, db).value == Keep(a, UrlIn(selected)) + Keep(b, UrlIn(selected))
  {
    var selected := UnpostedUrls(db, DedupStrategy(dedup, defaultStrategy), LongUrls(a + b)).value;
    KeepAppend(a, b, UrlIn(selected));
  }

  /**
   * `postable_entries` without URL shortening: for a new feed, the first
   * `NEW_FEED_POSTS_MAX[new]` unposted entries; otherwise all of them.
   */
  function PostableEntries(unposted: seq<Entry>, isNewFeed: bool, newSetting: string, newFeedPostsMax: map<string, nat>)
    : (r: Result<seq<Entry>, FeedError>)
    ensures !isNewFeed ==> r == Ok(unposted)
    ensures isNewFeed ==> (r.Ok? <==> newSetting in newFeedPostsMax)
    ensures r.Ok? ==> |r.value| <= |unposted| && r.value == unposted[..|r.value|]
    ensures r.Ok? && isNewFeed ==> var m := newFeedPostsMax[newSetting];
      |r.value| == (if m < |unposted| then m else |unposted|)
  {
    if !isNewFeed then Ok(unposted)
    else if newSetting !in newFeedPostsMax then Err(UnknownNewSetting(newSetting))
    else
      var m := newFeedPostsMax[newSetting];
      Ok(if m < |unposted| then unposted[..m] else unposted)
  }
}
