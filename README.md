# irc-rss-feed-bot: feed entries, archive search and hashing helpers

This project models the sequential core of the IRC RSS feed bot in Dafny:

- **Feed entries** (`feed.dfy`):
  - choosing an entry parser from the feed's configuration;
  - reading the configured URLs and the URLs the parser asks to follow, each at most once;
  - cleaning entries up: blacklist and whitelist, HTTPS, substitutions, formatting, space escaping, HTML stripping, curly quotes, trailing periods, all-caps titles, shortening;
  - removing duplicate entries;
  - choosing the unposted entries and the postable ones.
- **Duplicate removal** (`dedupe.dfy`): keeps the first element per key, in order. It is shared by the feed's entry dedupe and by the searcher's row dedupe.
- **Searcher helpers** (`search_base.dfy`):
  - the query normaliser;
  - merging result frames: concatenate, sort newest first, drop duplicate `(channel, feed, long_url)` keys, and leave one frame in place;
  - the Markdown title and the reply text.
- **GitHub searcher** (`search_github.dfy`): turns code-search hits over the archived CSV files into rows.
  - It cuts each matched line out of the file and reads it under the CSV header.
  - It skips rows the full-text matcher rejects.
  - It reads the channel and the UTC date-time from the file's path.
  - It stops at 500 held rows and then reports truncation.
- **Int8Hash** (`int8hash.dfy`):
  - the signed big-endian decode of an 8-byte digest into the signed 64-bit range;
  - the list builder and the dict builder over it.
- **`url_to_netloc`** (`urllib.dfy`): a URL without a scheme is read as `https://…`; the netloc is case-folded; one leading `www.` is dropped.
- **Python string semantics** (`pystr.dfy`): the parts of `str` the code relies on, and their laws (`split`/`join` round trips, `strip`, `find`/`rfind`, slicing with negative bounds, `replace`, ASCII `casefold`/`isupper`/`capitalize`).
- **`Option` and `Result`** (`wrappers.dfy`).

How the model is built:

- The loops the code runs are methods with loop invariants:
  - the URL worklist;
  - the per-entry clean-up loops;
  - the whitelist loop;
  - the nested hit / text-match / match loop of `_search`.
- Each of these methods is proved against a specification function, and the properties of that function are proved as lemmas.
- The list of result frames that `_concat_results_dfs` rewrites in place is a class, `ResultFrames`, whose `frames` field the search loop updates.
- Failed assertions and exceptions the code raises become `Err` values:
  - a file without the CSV header;
  - a fragment not found in the file;
  - an unreadable CSV line or path;
  - a `select`-less parser mapping;
  - an unknown dedup strategy;
  - an unknown `new` setting.

## Model

| member | source | states |
|---|---|---|
| Dedupe.DedupeBy | ircrssfeedbot/feed.py:72-88 | the result has one element per distinct key, each the first element of the input with that key, in input order; it is no longer than the input and has the same key set |
| Feed.SelectParser | ircrssfeedbot/feed.py:94-106 | the loop over the parser keys returns the choice `Selected` specifies |
| Feed.SelectedSpec | ircrssfeedbot/feed.py:94-106 | the first of `hext`, `jmes`, `jmespath`, `pandas` with a truthy setting decides the parser; with none set the parser is feedparser with no selector and no follower |
| Feed.JmesAsJmespath | ircrssfeedbot/feed.py:95-101 | when `hext` and `jmes` are not set, a string under `jmes` selects exactly what it selects under `jmespath`: the jmespath parser with that selector and no follower |
| Feed.MappingSetting | ircrssfeedbot/feed.py:95-101 | a non-empty mapping under the first truthy key decides the parser whatever it holds: without `select` it fails, and `{"select": None}` selects with no selector and no follower |
| Feed.Enqueue | ircrssfeedbot/feed.py:128 | the pending URLs stay in front; afterwards pending holds exactly the old pending URLs plus the follow URLs not yet read; a duplicate-free pending list stays duplicate-free, a pending list without read URLs stays without them, and every URL appended comes from the follow URLs |
| Feed.CrawlStep | ircrssfeedbot/feed.py:112-128 | reading the next pending URL keeps the worklist invariant and strictly grows the set of read URLs within the finite URL universe |
| Feed.ReadUrls | ircrssfeedbot/feed.py:110-152 | the URLs read are `Crawled`: none read twice; the configured URLs first, in order; every configured URL and every follow URL of a read URL; nothing else, since each URL read is configured or a follow URL of a URL read before it. The entries are the parser outputs concatenated in read order; the count is the number of URLs read |
| Feed.CrawledExcludesUnreachableCycle | ircrssfeedbot/feed.py:110-128 | URLs that only follow each other, and that no configured URL leads to, are not read: from `[a]` with `x` and `y` following each other, `[a]` is crawled and `[a, x, y]` is not |
| Feed.Keep | ircrssfeedbot/feed.py:162 | the filtered list holds exactly the input elements that pass the predicate, and is no longer than the input |
| Feed.KeepAppend | ircrssfeedbot/feed.py:337 | filtering distributes over concatenation, so the kept elements stay in input order |
| Feed.WhitelistedSpec | ircrssfeedbot/feed.py:168-180 | the result is, in order, the whitelisted entries each marked: `r[i] == Marked(Keep(s, IsWhitelisted)[i])`; an entry matched on `title` gets its title pattern set, any other is kept as it was |
| Feed.WhitelistedAppend | ircrssfeedbot/feed.py:168-177 | the whitelist keeps order: the marked entries of `a + b` are those of `a` followed by those of `b` |
| Feed.WhitelistEntries | ircrssfeedbot/feed.py:168-177 | the whitelist loop returns the whitelisted entries, marked |
| Feed.FilteredSpec | ircrssfeedbot/feed.py:159-180 | with the blacklist on no entry is blacklisted and with the whitelist on every entry is whitelisted; each entry let through is an input entry, marked when the whitelist is on; every input entry that passes both filters is let through; no entry is added |
| Feed.FilteredAppend | ircrssfeedbot/feed.py:159-180 | the filters keep order: what passes from `a + b` is what passes from `a` followed by what passes from `b` |
| Feed.HttpsUrlRewritesScheme | ircrssfeedbot/feed.py:183-187 | a leading `http://` becomes `https://` with the rest kept; any other URL is unchanged; the result never starts with `http://` |
| Feed.EscapedUrlClean | ircrssfeedbot/feed.py:240-243 | an escaped URL has no space and no leading or trailing whitespace, and escaping again changes nothing |
| Feed.UnquotedTitleSpec | ircrssfeedbot/feed.py:255-263 | a title loses its outer curly quotes exactly when it is longer than 2, starts with the opening quote, ends with the closing one, and has neither quote inside; unquoting is idempotent |
| Feed.TrimmedTitleSpec | ircrssfeedbot/feed.py:266-270 | a title whose right-stripped form contains `. ` is unchanged; any other title becomes the prefix of its right-stripped form that does not end in `.` and is followed only by periods there |
| Feed.DecapitalisedTitleSpec | ircrssfeedbot/feed.py:274-278 | an all-caps title of several words keeps its first character and has every later character lower-cased; any other title is unchanged; the step is idempotent |
| Feed.CapitalizeIdempotent | ircrssfeedbot/feed.py:278 | capitalising twice is capitalising once |
| Feed.CapitalizeKeepsWords | ircrssfeedbot/feed.py:276-278 | capitalising keeps the number of words |
| Feed.Prepared | ircrssfeedbot/feed.py:182-237 | the HTTPS, substitution and formatting steps change only the title and the long URL |
| Feed.Finished | ircrssfeedbot/feed.py:246-286 | the HTML, quote, period, capitalisation and shortening steps change only the title and the summary |
| Feed.CleanedUrl | ircrssfeedbot/feed.py:182-286 | a cleaned entry has an escaped long URL and keeps its blacklist and whitelist fields |
| Feed.PrepareEntries | ircrssfeedbot/feed.py:182-237 | the loops before escaping update each entry as `Prepared` says, keeping length and order |
| Feed.FinishEntries | ircrssfeedbot/feed.py:246-286 | the loops after escaping update each entry as `Finished` says, keeping length and order |
| Feed.UpdateEach | ircrssfeedbot/feed.py:241-243 | a `for entry in entries` loop that rewrites fields updates every entry in place and keeps length and order |
| Feed.ProcessedOrigin | ircrssfeedbot/feed.py:154-291 | every processed entry is the cleaned form of an entry that passed the filters |
| Feed.ProcessedSpec | ircrssfeedbot/feed.py:154-291 | processed entries have distinct keys, are no more than the input, have no space in their URL, and each comes from a filtered entry; every filtered entry is represented; blacklist and whitelist hold |
| Feed.ProcessEntries | ircrssfeedbot/feed.py:154-291 | the clean-up returns exactly the processed entries |
| Feed.ReadEntries | ircrssfeedbot/feed.py:90-152 | a parser setting that fails makes reading fail with its error; otherwise the URLs read are `Crawled` with the chosen parser, and the result is the processed entries of those URLs in read order with the number of URLs read |
| Feed.UnpostedEntries | ircrssfeedbot/feed.py:324-339 | the result is defined exactly for the `channel` and `feed` strategies, an empty setting falling back to the default; it is the entries, in order, whose long URL the database reports as unposted |
| Feed.UnpostedEntriesOrder | ircrssfeedbot/feed.py:336-337 | the unposted entries of `a + b` are the unposted entries of `a` followed by those of `b` |
| Feed.PostableEntries | ircrssfeedbot/feed.py:293-322 | an old feed posts all unposted entries; a new feed needs its `new` setting to be known and posts the first `min(max, n)` of them |
| SearchBase.FixQuery | ircrssfeedbot/searchers/_base.py:55-57 | the fixed query has the same words, no leading or trailing whitespace, only plain spaces and no two in a row |
| SearchBase.FixQueryIdempotent | ircrssfeedbot/searchers/_base.py:55-57 | fixing a fixed query changes nothing |
| SearchBase.Insert | ircrssfeedbot/searchers/_base.py:40 | inserting into rows sorted newest first keeps them sorted and adds exactly that row |
| SearchBase.SortNewestFirst | ircrssfeedbot/searchers/_base.py:40 | the rows are sorted by date-time, newest first, and are a permutation of the input |
| SearchBase.SortKeepsRows | ircrssfeedbot/searchers/_base.py:40 | sorting keeps the length and the rows |
| SearchBase.DedupeFrom | ircrssfeedbot/searchers/_base.py:41 | every row left by the dedupe was in its input |
| SearchBase.DedupeSorted | ircrssfeedbot/searchers/_base.py:40-41 | dropping duplicates from sorted rows leaves them sorted |
| SearchBase.DedupeNewest | ircrssfeedbot/searchers/_base.py:40-41 | after sorting, the row kept for each key is at least as new as every row with that key |
| SearchBase.MergeSpec | ircrssfeedbot/searchers/_base.py:37-43 | merged rows are sorted newest first, have distinct keys, come from the input, are no more than the input, and cover every input key with its newest date-time |
| SearchBase.ResultFrames.constructor | ircrssfeedbot/searchers/github.py:35 | the frame list starts empty |
| SearchBase.ResultFrames.Append | ircrssfeedbot/searchers/github.py:58 | appending adds exactly one frame at the end |
| SearchBase.ResultFrames.Concat | ircrssfeedbot/searchers/_base.py:37-43 | the frame list is replaced in place by one frame: the merge of all rows |
| SearchBase.UnescapeEscapePipes | ircrssfeedbot/searchers/_base.py:72 | escaping `|` as `\|` loses nothing: unescaping gives the title back |
| SearchBase.EscapedPipesFollowBackslash | ircrssfeedbot/searchers/_base.py:72 | every `|` in an escaped title is preceded by a backslash |
| SearchBase.MarkdownTitle | ircrssfeedbot/searchers/_base.py:72 | the title cell starts with `[`, the escaped title and `](`, and ends with `)` |
| SearchBase.GistDescription | ircrssfeedbot/searchers/_base.py:75-82 | the description starts with the query, `max` or `all` as the results are truncated or not, and the row count, and ends with the searcher name |
| SearchBase.NoResultsReply | ircrssfeedbot/searchers/_base.py:65-68 | the no-results reply starts with `0 ` and ends with the syntax help |
| SearchBase.FoundReply | ircrssfeedbot/searchers/_base.py:75-86 | the reply starts with `Max ` or `All `, as the results are truncated or not, then the row count |
| SearchBase.Reply | ircrssfeedbot/searchers/_base.py:62-87 | without results the reply reports 0 and gives the syntax help; otherwise it starts with the capitalised indicator and the number of rows |
| GithubSearch.MatchInContent | ircrssfeedbot/searchers/github.py:45-49 | match indices in the file are the fragment position plus the indices in the fragment, and select the same text |
| GithubSearch.HeaderLineOf | ircrssfeedbot/searchers/github.py:41-51 | for a file starting with the CSV header, the text before the first line break is the header line |
| GithubSearch.LineStartSpec | ircrssfeedbot/searchers/github.py:50 | the line start is the last line break before the match, after the header line |
| GithubSearch.LineEndSpec | ircrssfeedbot/searchers/github.py:50 | the line end is the first line break at or after the match end |
| GithubSearch.LineCsvShape | ircrssfeedbot/searchers/github.py:49-51 | for a match on one line, followed by a line break, the cut-out CSV is the header line followed by that whole line, which begins with its line break |
| GithubSearch.PathPartsOfJoin | ircrssfeedbot/searchers/github.py:56-57 | splitting a joined path gives its components back |
| GithubSearch.Padded | ircrssfeedbot/searchers/github.py:57 | a zero-padded field has the requested width and only digits |
| GithubSearch.ParseDateTimePathOf | ircrssfeedbot/searchers/github.py:57 | every valid date-time, written as `YYYY/MMDD/HHMMSS.csv`, parses back to itself |
| GithubSearch.DateTimePathOfParse | ircrssfeedbot/searchers/github.py:57 | every path that parses gives a valid date-time, and writing that date-time out gives the path back |
| GithubSearch.MatchRow | ircrssfeedbot/searchers/github.py:52-57 | a line is skipped exactly when it is read and rejected by the matcher; an unreadable line is an error; a matched line on a path without components fails with NoChannel, otherwise it is kept exactly when the rest of the path parses as a date-time and fails with BadDateTime if not; a kept row carries the CSV fields, passes the matcher, and has the path's first component as channel and the rest as its date-time |
| GithubSearch.Rows | ircrssfeedbot/searchers/github.py:53-55 | every row collected passed the matcher |
| GithubSearch.HoldRow | ircrssfeedbot/searchers/github.py:56-65 | holding a row keeps the counter equal to the held rows and below 500; at 500 the rows are merged, and the search stops if 500 distinct newest rows remain |
| GithubSearch.Finish | ircrssfeedbot/searchers/github.py:67-70 | with no rows found the result is "no results"; otherwise it is the merged rows, not truncated, fewer than 500, sorted, with distinct keys and each key at its newest |
| GithubSearch.VisitSpan | ircrssfeedbot/searchers/github.py:47-65 | one match is turned into a row, skipped, or ends the search, as the specification of the steps says; an error stops before the failing step with the rows so far under 500 keys, and a truncation happens at the step that brings the rows from under 500 keys to 500 |
| GithubSearch.VisitSpans | ircrssfeedbot/searchers/github.py:47-65 | the loop over one fragment's matches does a prefix of its steps and ends as they say, at the first failing step or the first step that brings the rows to 500 keys |
| GithubSearch.VisitTextMatches | ircrssfeedbot/searchers/github.py:43-65 | the loop over a hit's text matches fails on a missing fragment and otherwise does its matches in order, stopping at the first error or the first step that brings the rows to 500 keys |
| GithubSearch.VisitHits | ircrssfeedbot/searchers/github.py:39-65 | the loop over hits fails on a file without the header and otherwise does all steps in order, stopping at the first error or the first step that brings the rows to 500 keys |
| GithubSearch.Stopped | ircrssfeedbot/searchers/github.py:60-65 | a halted search stopped either at an error right after the steps done, with every prefix up to it under 500 keys, or by truncation at the last step done, whose rows carry 500 keys while every shorter prefix is under 500 |
| GithubSearch.Search | ircrssfeedbot/searchers/github.py:29-70 | an error is the first error of the steps; "no results" means no row matched; results are 1 to 500 sorted rows with distinct keys that pass the matcher; an untruncated result covers all rows found with their newest date-times; a truncated one has exactly 500 rows covering the rows of the steps done so far. The search stops where the code does: a truncation at the first step after which the rows carry 500 distinct keys (every shorter prefix is under 500), an error at the first failing step with every prefix before it under 500 keys, and an untruncated result only when all rows stay under 500 keys |
| Int8Hash.Bounds | ircrssfeedbot/util/hashlib.py:8-12 | `MIN` is -2^63 and `MAX` is 2^63 - 1 |
| Int8Hash.UnsignedOfToBytes | ircrssfeedbot/util/hashlib.py:23 | writing a number as big-endian bytes and reading them back gives the number |
| Int8Hash.ToBytesOfUnsigned | ircrssfeedbot/util/hashlib.py:23 | reading big-endian bytes and writing them back gives the bytes |
| Int8Hash.TopBit | ircrssfeedbot/util/hashlib.py:23 | the first byte's top bit is set exactly when the unsigned value is in the upper half of the range |
| Int8Hash.AsInt | ircrssfeedbot/util/hashlib.py:18-25 | the hash of every text lies in `[MIN, MAX]` |
| Int8Hash.SignedOfSignedToBytes | ircrssfeedbot/util/hashlib.py:23 | every value in range is the signed big-endian reading of its 8-byte two's-complement encoding |
| Int8Hash.SignedToBytesOfSigned | ircrssfeedbot/util/hashlib.py:23-24 | every 8-byte digest reads as a value in range whose encoding is that digest |
| Int8Hash.AsList | ircrssfeedbot/util/hashlib.py:27-29 | the list has one hash per text, in order |
| Int8Hash.LastWithHash | ircrssfeedbot/util/hashlib.py:14-16 | finds the last text with a given hash, or reports that none has it |
| Int8Hash.AsDictSpec | ircrssfeedbot/util/hashlib.py:14-16 | the dict's keys are the hashes of the texts, and each key maps to the last text with that hash |
| UrlLib.UrlToNetloc | ircrssfeedbot/util/urllib.py:9-18 | the netloc is case-folded, and one leading `www.` is removed if present; otherwise it is unchanged |
| UrlLib.CaseFoldIdempotent | ircrssfeedbot/util/urllib.py:15 | case-folding twice is case-folding once |
| UrlLib.UrlToNetlocFolded | ircrssfeedbot/util/urllib.py:15 | the result is already case-folded |
| UrlLib.UrlToNetlocIgnoresCase | ircrssfeedbot/util/urllib.py:15-18 | URLs whose netlocs agree up to case give the same result |
| UrlLib.SchemelessAsHttps | ircrssfeedbot/util/urllib.py:11-14 | a URL without a scheme gives the netloc of the same URL with `https://` in front |
| UrlLib.StripsOneWww | ircrssfeedbot/util/urllib.py:16-17 | only one `www.` is removed: `www.www.x` gives `www.x` |

## Left out

- Fetching URL content, sleeping between URLs, logging, alerts and timers. The parser is an abstract function from the parser choice and the URL to the entries and the follow URLs.
- The contents of regular-expression substitution and `format_map` formatting (feed.py:191-237). They are abstract string functions; a formatter exception is `None`, which leaves the field unchanged. The format parameters also hold `entry.data` and `entry.categories` (feed.py:209-215), which `Entry` does not carry; the abstract formatter stands for them. A `KeyError` or `re.error` from the `format.re` search (feed.py:216-218) is raised outside the `try` and propagates; the model does not raise it.
- `html_to_text`, `shorten_to_bytes_width` and the whitelist and blacklist patterns. These live in modules that are not part of this model and are abstract functions or precomputed fields of the entry.
- The bitly URL shortener (feed.py:311-318). It is a network service.
- The database queries. They are abstract functions from long URLs to the URLs reported unposted.
- The Markdown results table and the CSV file written to the Gist (_base.py:70-80), apart from the title cell `MarkdownTitle` and the description `GistDescription`.
- The pandas DataFrame machinery. Rows are a datatype and frames are sequences of rows. `read_csv` is an abstract function that may fail. `to_markdown`, `to_csv` and the Gist are not modelled; the Gist URL is a parameter.
- The SQLite FTS5 matcher. It is an abstract predicate over the searchable text.
- The GitHub API (`search_code`, `get_user`, `create_gist`). The hits are a parameter.
- `ircstyle` styling. The styling function is a parameter.
- The SHAKE-128 digest and `str.encode`. The digest is an abstract function from text to 8 bytes.
- `urllib.parse.urlparse`. It is an abstract function from a string to its scheme and netloc.
- The `ttl_cache`, `lru_cache` and `cachedproperty` decorators. They only memoise, and the modelled functions are deterministic by construction.
- `bot.py`: threads, queues, barriers, the IRC client and scheduling. It is concurrency and I/O.
- Feed.ProcessEntries: the code mutates shared entry objects in place. The model updates a sequence of entry values, so aliasing between entries is not captured.
- Dedupe.DedupeBy: entry equality and hashing live in `entry.py`, which is not part of this model. The dedupe is over an abstract key function.
- Feed.ReadUrls: `follow_urls - urls_read` is a set, whose iteration order Python leaves open. The model enqueues follow URLs in the parser's output order.
- Feed.SelectedSpec: a parser setting is a string or a mapping of strings and `None`; other values are not modelled, and a setting that is `None` or false is treated as absent.
- Feed.ReadUrls: the contract fixes which URLs are read and that the configured ones come first, in order. It does not state the first-in, first-out order of the followed URLs after them; the method computes that order, and the entries follow the read order.
- GithubSearch.MatchRow: `read_csv` is taken to return at most one row. A cut-out slice spanning several lines, which pandas reads as several rows counted as one result, is not modelled.
- Feed.ReadUrls: termination is proved for parsers whose follow URLs stay within a finite universe of URLs containing the configured ones.
- Feed.CapitalizeIdempotent: `capitalize`, `isupper` and `casefold` follow ASCII case rules only; Unicode case mapping is not modelled. Whitespace follows Python's full `isspace` set.
- GithubSearch.ParseDateTimePathOf: `strptime` is modelled only for the fixed-width `%Y/%m%d/%H%M%S.csv` form; any other form is rejected.
- GithubSearch.PathPartsOfJoin: paths are relative, so an absolute path's root component is not modelled.
- GithubSearch.LineCsvShape: it is stated only when a line break follows the match. Without one, `find` returns -1 and the slice as written drops the last character; `LineCsv` computes that case as written, but no lemma describes it.
- GithubSearch.MatchInContent: `match["indices"]` is modelled as a pair of start and end; other lengths are not modelled.
- SearchBase.MergeSpec: the sort is not stated to be stable, so among rows with equal date-times the model does not say which one is kept.
- SearchBase.MarkdownTitle: the contract does not state the long URL between `](` and `)`.
- SearchBase.Reply: the contract states the leading count word and the syntax help, not the styled name, the query or the Gist link in between.
- Feed.PostableEntries: short URLs are not set, because the shortener is not modelled.
