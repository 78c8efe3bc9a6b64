/**
 * What every searcher shares: the query normaliser, the result rows, merging
 * lists of rows into one newest-first list without duplicate
 * (channel, feed, long URL) keys, and the text of the reply to a search.
 */
module SearchBase {
  import opened PyStr
  import opened Dedupe

  /** `fix_query`: the query's whitespace-separated words joined by single spaces. */
  function FixQuery(query: string): (r: string)
    ensures Words(r) == Words(query)
    ensures r == [] || (!IsSpace(r[0]) && !IsSpace(r[|r| - 1]))
    ensures forall i :: 0 <= i < |r| && IsSpace(r[i]) ==> r[i] == ' '
    ensures forall i :: 0 <= i < |r| - 1 ==> !(IsSpace(r[i]) && IsSpace(r[i + 1]))
  {
    var ws := Words(query);
    WordsOfJoinSpace(ws);
    JoinSpaceShape(ws);
    JoinSpace(ws)
  }

  /** Fixing a fixed query changes nothing. */
  lemma FixQueryIdempotent(query: string)
    ensures FixQuery(FixQuery(query)) == FixQuery(query)
  {
    assert Words(FixQuery(query)) == Words(query);
  }

  /** A UTC date and time. */
  datatype DateTime = DateTime(year: int, month: int, day: int, hour: int, minute: int, second: int)

  /**
   * A number that orders date-times with fields in their calendar ranges
   * chronologically (the fields in order of significance).
   */
  function Stamp(d: DateTime): int {
    ((((d.year * 12 + (d.month - 1)) * 31 + (d.day - 1)) * 24 + d.hour) * 60 + d.minute) * 60 + d.second
  }

  /** One search result row: the archived CSV columns with the channel and date-time of its file. */
  datatype Row = Row(datetime: DateTime, channel: string, feed: string, title: string, longUrl: string, shortUrl: string)

  /** The columns duplicates are dropped on. */
  function RowKey(r: Row): (string, string, string) {
    (r.channel, r.feed, r.longUrl)
  }

  /** Newest first. */
  predicate SortedNewestFirst(s: seq<Row>) {
    forall i, j :: 0 <= i < j < |s| ==> Stamp(s[j].datetime) <= Stamp(s[i].datetime)
  }

  function Insert(x: Row, s: seq<Row>): (r: seq<Row>)
    requires SortedNewestFirst(s)
    ensures SortedNewestFirst(r)
    ensures multiset(r) == multiset(s) + multiset{x}
  {
    if s == [] then [x]
    else if Stamp(s[0].datetime) <= Stamp(x.datetime) then [x] + s
    else
      var rest := Insert(x, s[1..]);
      assert s == [s[0]] + s[1..];
      InsertBelow(s[0], x, s[1..], rest);
      [s[0]] + rest
  }

  /** Putting a row in front of a sorted list of rows no newer than it keeps the list sorted. */
  lemma InsertBelow(h: Row, x: Row, t: seq<Row>, rest: seq<Row>)
    requires SortedNewestFirst([h] + t)
    requires Stamp(x.datetime) < Stamp(h.datetime)
    requires SortedNewestFirst(rest)
    requires multiset(rest) == multiset(t) + multiset{x}
    ensures SortedNewestFirst([h] + rest)
  {
    forall j | 0 <= j < |rest| ensures Stamp(rest[j].datetime) <= Stamp(h.datetime) {
      assert rest[j] in multiset(rest);
      if rest[j] != x {
        assert rest[j] in multiset(t);
        var k :| 0 <= k < |t| && t[k] == rest[j];
        assert ([h] + t)[0] == h && ([h] + t)[k + 1] == t[k];
      }
    }
    var r := [h] + rest;
    forall i, j | 0 <= i < j < |r| ensures Stamp(r[j].datetime) <= Stamp(r[i].datetime) {
      if i > 0 {
        assert r[i] == rest[i - 1] && r[j] == rest[j - 1];
      } else {
        assert r[j] == rest[j - 1];
      }
    }
  }

  /** `sort_values(by=["datetime"], ascending=False)` (which row comes first among equal date-times is not specified). */
  function SortNewestFirst(s: seq<Row>): (r: seq<Row>)
    ensures SortedNewestFirst(r)
    ensures multiset(r) == multiset(s)
  {
    if s == [] then []
    else
      assert s == [s[0]] + s[1..];
      Insert(s[0], SortNewestFirst(s[1..]))
  }

  /** The rows of the list of frames, in order (`pd.concat`). */
  function Flatten(frames: seq<seq<Row>>): seq<Row> {
    if frames == [] then [] else Flatten(frames[..|frames| - 1]) + frames[|frames| - 1]
  }

  lemma FlattenAppend(frames: seq<seq<Row>>, df: seq<Row>)
    ensures Flatten(frames + [df]) == Flatten(frames) + df
  {
    assert (frames + [df])[..|frames|] == frames;
  }

  /** The rows after `_concat_results_dfs`: sorted newest first, then duplicates dropped keeping the first. */
  function Merge(rows: seq<Row>): seq<Row> {
    DedupeBy(SortNewestFirst(rows), RowKey)
  }

  /**
   * The merged rows are sorted newest first, share no key, come from the
   * input, cover every key of the input, and for each key hold a row with the
   * latest date-time the input has for that key.
   */
  lemma MergeSpec(rows: seq<Row>)
    ensures var m := Merge(rows);
      && SortedNewestFirst(m)
      && DistinctKeys(m, RowKey)
      && |m| <= |rows|
      && (forall x :: x in m ==> x in rows)
      && KeySet(m, RowKey) == KeySet(rows, RowKey)
      && (forall x, y :: x in m && y in rows && RowKey(y) == RowKey(x) ==> Stamp(y.datetime) <= Stamp(x.datetime))
  {
    var s := SortNewestFirst(rows);
    SortKeepsRows(rows);
    SameRowsSameKeys(s, rows);
    DedupeSorted(s);
    DedupeNewest(s);
    forall x | x in Merge(rows) ensures x in rows {
      DedupeFrom(s, x);
    }
    forall x, y | x in Merge(rows) && y in rows && RowKey(y) == RowKey(x)
      ensures Stamp(y.datetime) <= Stamp(x.datetime)
    {
      assert y in s;
    }
  }

  /** Sorting keeps the rows: the same number of them and the same members. */
  lemma SortKeepsRows(rows: seq<Row>)
    ensures |SortNewestFirst(rows)| == |rows|
    ensures forall x :: x in SortNewestFirst(rows) <==> x in rows
  {
    var s := SortNewestFirst(rows);
    assert |s| == |multiset(s)| == |multiset(rows)| == |rows|;
    forall x ensures x in s <==> x in rows {
      assert x in s <==> x in multiset(s);
      assert x in rows <==> x in multiset(rows);
    }
  }

  lemma SameRowsSameKeys(a: seq<Row>, b: seq<Row>)
    requires forall x :: x in a <==> x in b
    ensures KeySet(a, RowKey) == KeySet(b, RowKey)
  {
    forall k | k in KeySet(b, RowKey) ensures k in KeySet(a, RowKey) {
      var i :| 0 <= i < |b| && RowKey(b[i]) == k;
      assert b[i] in a;
      var j :| 0 <= j < |a| && a[j] == b[i];
    }
    forall k | k in KeySet(a, RowKey) ensures k in KeySet(b, RowKey) {
      var i :| 0 <= i < |a| && RowKey(a[i]) == k;
      assert a[i] in b;
      var j :| 0 <= j < |b| && b[j] == a[i];
    }
  }

  lemma DedupeFrom(s: seq<Row>, x: Row)
    requires x in DedupeBy(s, RowKey)
    ensures x in s
  {
    var m := DedupeBy(s, RowKey);
    var i :| 0 <= i < |m| && m[i] == x;
    assert m[i] == s[IndexOfKey(s, RowKey, RowKey(m[i]))];
  }

  /** Keeping the first row of each key keeps a sorted list sorted. */
  lemma DedupeSorted(s: seq<Row>)
    requires SortedNewestFirst(s)
    ensures SortedNewestFirst(DedupeBy(s, RowKey))
  {
    var m := DedupeBy(s, RowKey);
    forall i, j | 0 <= i < j < |m| ensures Stamp(m[j].datetime) <= Stamp(m[i].datetime) {
      assert IndexOfKey(s, RowKey, RowKey(m[i])) < IndexOfKey(s, RowKey, RowKey(m[j]));
    }
  }

  /** In a sorted list, the first row of each key is the newest row of that key. */
  lemma DedupeNewest(s: seq<Row>)
    requires SortedNewestFirst(s)
    ensures forall x, y :: x in DedupeBy(s, RowKey) && y in s && RowKey(y) == RowKey(x) ==>
      Stamp(y.datetime) <= Stamp(x.datetime)
  {
    var m := DedupeBy(s, RowKey);
    forall x, y | x in m && y in s && RowKey(y) == RowKey(x) ensures Stamp(y.datetime) <= Stamp(x.datetime) {
      var i :| 0 <= i < |m| && m[i] == x;
      var q :| 0 <= q < |s| && s[q] == y;
      DedupeNewestAt(s, i, q);
    }
  }

  lemma DedupeNewestAt(s: seq<Row>, i: nat, q: nat)
    requires SortedNewestFirst(s)
    requires i < |DedupeBy(s, RowKey)| && q < |s|
    requires RowKey(s[q]) == RowKey(DedupeBy(s, RowKey)[i])
    ensures Stamp(s[q].datetime) <= Stamp(DedupeBy(s, RowKey)[i].datetime)
  {
    var x := DedupeBy(s, RowKey)[i];
    var p := IndexOfKey(s, RowKey, RowKey(x));
    assert x == s[p];
    assert p <= q;
  }

  /**
   * The list of result frames that `_search` appends to and that
   * `_concat_results_dfs` rewrites in place.
   */
  class ResultFrames {
    var frames: seq<seq<Row>>

    constructor ()
      ensures frames == []
    {
      frames := [];
    }

    /** `dfs.append(df)`. */
    method Append(df: seq<Row>)
      modifies this
      ensures frames == old(frames) + [df]
    {
      frames := frames + [df];
    }

    /** `_concat_results_dfs(dfs)`: the list ends up holding exactly one frame, the merged rows. */
    method Concat()
      modifies this
      ensures frames == [Merge(Flatten(old(frames)))]
    {
      var df := Flatten(frames);
      ghost var merged := Merge(df);
      frames := [];
      df := SortNewestFirst(df);
      df := DedupeBy(df, RowKey);
      assert df == merged;
      frames := frames + [df];
      assert |frames| == 1;
    }
  }

  // ------------------------------------------------------------------------
  // The reply to a search

  /** What a searcher's `_search` returns: no results (`None, None`), or rows and whether they were cut off. */
  datatype SearchResults = NoResults | Found(rows: seq<Row>, truncated: bool)

  /** `title.replace("|", r"\|")`. */
  function EscapePipes(title: string): string {
    ReplaceChar(title, '|', "\\|")
  }

  /** Reads `\|` back as `|`. */
  function UnescapePipes(s: string): string {
    if s == [] then []
    else if |s| >= 2 && s[0] == '\\' && s[1] == '|' then "|" + UnescapePipes(s[2..])
    else [s[0]] + UnescapePipes(s[1..])
  }

  /** Escaping a title cannot be misread: reading `\|` back as `|` gives the title again. */
  lemma {:induction false} UnescapeEscapePipes(title: string)
    ensures UnescapePipes(EscapePipes(title)) == title
  {
    if title != [] {
      var rest := EscapePipes(title[1..]);
      UnescapeEscapePipes(title[1..]);
      if title[0] == '|' {
        assert EscapePipes(title) == "\\|" + rest;
        assert ("\\|" + rest)[2..] == rest;
      } else {
        assert EscapePipes(title) == [title[0]] + rest;
        assert rest == [] || rest[0] != '|';
        assert ([title[0]] + rest)[1..] == rest;
      }
      assert title == [title[0]] + title[1..];
    }
  }

  /** Every `|` of an escaped title follows a `\`. */
  lemma {:induction false} EscapedPipesFollowBackslash(title: string)
    ensures var e := EscapePipes(title);
      forall i :: 0 <= i < |e| && e[i] == '|' ==> 0 < i && e[i - 1] == '\\'
  {
    if title != [] {
      EscapedPipesFollowBackslash(title[1..]);
      var rest := EscapePipes(title[1..]);
      var head := if title[0] == '|' then "\\|" else [title[0]];
      assert EscapePipes(title) == head + rest;
      assert rest == [] || rest[0] != '|';
    }
  }

  /** The Markdown title cell: `[title](long_url)` with the title's pipes escaped. */
  function MarkdownTitle(r: Row): (s: string)
    ensures StartsWith(s, "[" + EscapePipes(r.title) + "](")
    ensures |s| > 0 && s[|s| - 1] == ')'
  {
    "[" + EscapePipes(r.title) + "](" + r.longUrl + ")"
  }

  function TruncationIndicator(truncated: bool): string {
    if truncated then "max" else "all"
  }

  /**
   * The Gist's description: the query, then "max" or "all" as the results are
   * truncated or not, then the row count, and the searcher's name at the end.
   */
  function GistDescription(query: string, name: string, rows: seq<Row>, truncated: bool): (s: string)
    ensures StartsWith(s, query + ": " + (if truncated then "max" else "all") + " " + NatToString(|rows|) + " ")
    ensures |name| <= |s| && s[|s| - |name|..] == name
  {
    query + ": " + TruncationIndicator(truncated) + " " + NatToString(|rows|) + " search results from " + name
  }

  /** `ircstyle.style(text, italics=True, reset=reset)`, whose code is not part of this model. */
  type Style = (string, bool) -> string

  /**
   * The reply of `search`. Without results it reports 0 results and points
   * to the syntax help; otherwise it gives the count, whether it is the
   * maximum or all, and the link to the results.
   */
  function Reply(name: string, query: string, results: SearchResults, style: Style, syntaxHelp: string, gistUrl: string)
    : (s: string)
    ensures results.NoResults? ==> StartsWith(s, "0 ") && |syntaxHelp| <= |s| && s[|s| - |syntaxHelp|..] == syntaxHelp
    ensures results.Found? && results.truncated ==> StartsWith(s, "Max " + NatToString(|results.rows|) + " ")
    ensures results.Found? && !results.truncated ==> StartsWith(s, "All " + NatToString(|results.rows|) + " ")
  {
    match results
    case NoResults => NoResultsReply(style(name, true), style(query, true), syntaxHelp)
    case Found(rows, truncated) => FoundReply(style(name, true), style(query, false), |rows|, truncated, gistUrl)
  }

  /** The reply without results: the styled name and query, then the syntax help. */
  function NoResultsReply(styledName: string, styledQuery: string, syntaxHelp: string): (s: string)
    ensures StartsWith(s, "0 ") && |syntaxHelp| <= |s| && s[|s| - |syntaxHelp|..] == syntaxHelp
  {
    var mid := styledName + " search results for " + styledQuery + ". For help, see ";
    var s := "0 " + (mid + syntaxHelp);
    assert s[..2] == "0 ";
    assert s == ("0 " + mid) + syntaxHelp;
    s
  }

  /** The reply with results: the indicator, the count and the link to the results. */
  function FoundReply(styledName: string, styledQuery: string, count: nat, truncated: bool, gistUrl: string): (s: string)
    ensures StartsWith(s, (if truncated then "Max " else "All ") + NatToString(count) + " ")
  {
    var indicator := Capitalize(TruncationIndicator(truncated));
    assert indicator == if truncated then "Max" else "All";
    var head := indicator + " " + NatToString(count) + " ";
    assert head == (if truncated then "Max " else "All ") + NatToString(count) + " ";
    var tail := "search results → " + gistUrl + "#file-results-md (from " + styledName + " for " + styledQuery + ")";
    var s := head + tail;
    assert s[..|head|] == head;
    s
  }
}
