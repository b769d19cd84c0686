/** The helper component of the YouTrack plugin (helper.php): the tracker's
    base and issue URLs, how a REST request is addressed, the login decision,
    and the issue table handed to the wiki's renderer. */
module YouTrackHelper {
  import opened Php
  import opened DokuRenderer
  import opened TableLayout

  const UrlMissingMessage := "YouTrack URL is not defined."
  const CurlMissingMessage := "You have to install curl first to use the YouTrack plugin"
  const LoginFailedMessage := "Login data not correct, or REST login is not enabled."
  const LoginEndpoint := "/rest/user/login"

  /** What `getBaseUrl` shows through `msg` for the configured `url`: the
      one error, exactly when the URL is empty. */
  function UrlMessages(url: string): (r: seq<string>)
    ensures r != [] <==> Empty(url)
    ensures forall m :: m in r ==> m == UrlMissingMessage
  {
    if Empty(url) then [UrlMissingMessage] else []
  }

  predicate EndsWithSlash(s: string)
  {
    |s| > 0 && s[|s| - 1] == '/'
  }

  // ---------------------------------------------------------------------
  // Base URL and issue links

  /** `getBaseUrl`: the configured URL with one trailing slash removed. */
  function BaseUrl(url: string): (r: string)
    ensures EndsWithSlash(url) ==> r + "/" == url
    ensures !EndsWithSlash(url) ==> r == url
  {
    if EndsWithSlash(url) then url[..|url| - 1] else url
  }

  /** Only one slash goes: a URL ending in two slashes keeps one of them. */
  lemma BaseUrlStripsOneSlash(u: string)
    ensures BaseUrl(u + "//") == u + "/"
    ensures EndsWithSlash(BaseUrl(u + "//"))
  {
    assert (u + "//")[..|u| + 1] == u + "/";
  }

  /** Unless the URL ends in two slashes, the base URL has none at its end. */
  lemma BaseUrlNoTrailingSlash(u: string)
    requires !(|u| >= 2 && u[|u| - 2..] == "//")
    ensures !EndsWithSlash(BaseUrl(u))
  {
    if EndsWithSlash(u) && |u| >= 2 {
      assert u[|u| - 2..] == [u[|u| - 2], u[|u| - 1]];
    }
  }

  /** `getIssueUrl`: no link for an empty id, else `base/issue/id`; the
      link is empty exactly when the id is. */
  function IssueUrl(url: string, id: string): (r: string)
    ensures r == "" <==> Empty(id)
  {
    if Empty(id) then "" else BaseUrl(url) + "/issue/" + id
  }

  /** A link is the base URL, then "/issue/", then the id, and nothing else. */
  lemma IssueUrlParts(url: string, id: string)
    requires !Empty(id)
    ensures var r := IssueUrl(url, id);
      && |r| == |BaseUrl(url)| + |"/issue/"| + |id|
      && r[..|BaseUrl(url)|] == BaseUrl(url)
      && r[|BaseUrl(url)|..|r| - |id|] == "/issue/"
      && r[|r| - |id|..] == id
  {
  }

  /** Two issues with different (non-empty) ids never share a link. */
  lemma {:induction false} IssueUrlInjective(url: string, id1: string, id2: string)
    requires !Empty(id1) && !Empty(id2)
    requires IssueUrl(url, id1) == IssueUrl(url, id2)
    ensures id1 == id2
  {
    var prefix := BaseUrl(url) + "/issue/";
    assert IssueUrl(url, id1)[|prefix|..] == id1;
    assert IssueUrl(url, id2)[|prefix|..] == id2;
  }

  // ---------------------------------------------------------------------
  // Requests

  /** The HTTP request curl ends up making. No custom request method is
      set, so every method other than POST and PUT is sent as a GET. */
  datatype Verb = Get | Post | Put

  /** What curl is given as request body. */
  datatype Body = NoBody | Form(fields: seq<(string, string)>)

  /** One request handed to curl: verb, URL, body and the cookie file
      it reads and writes (None when no cookie is attached). */
  datatype HttpCall = HttpCall(verb: Verb, url: string, body: Body, cookie: Option<string>)

  /** What `request` returns: false when curl is missing, null when the
      transfer produced nothing truthy, else the response text. */
  datatype Reply = NoCurl | NoContent | Content(text: string)

  /** Only "POST" and "PUT" select a verb of their own. */
  function VerbOf(httpMethod: string): (v: Verb)
    ensures v == Get <==> httpMethod != "POST" && httpMethod != "PUT"
    ensures v == Post <==> httpMethod == "POST"
  {
    if httpMethod == "POST" then Post else if httpMethod == "PUT" then Put else Get
  }

  /** Parameters go into the body only for a POST that has some. */
  function BodyOf(httpMethod: string, params: seq<(string, string)>): (b: Body)
    ensures b.Form? <==> httpMethod == "POST" && params != []
    ensures b.Form? ==> b.fields == params
  {
    if httpMethod == "POST" && params != [] then Form(params) else NoBody
  }

  /** Parameters go into the query string for every method but POST and
      PUT: exactly the requests sent as a GET, when there are parameters. */
  predicate QueryAttached(httpMethod: string, params: seq<(string, string)>): (b: bool)
    ensures b <==> VerbOf(httpMethod) == Get && params != []
  {
    httpMethod != "POST" && httpMethod != "PUT" && params != []
  }

  /** The `key=value` pieces of `http_build_query`, each side passed
      through the URL encoder `encode`. */
  function QueryPairs(params: seq<(string, string)>, encode: string -> string): (r: seq<string>)
    ensures |r| == |params|
    ensures forall i :: 0 <= i < |r| ==> r[i] == encode(params[i].0) + "=" + encode(params[i].1)
  {
    if params == [] then []
    else QueryPairs(params[..|params| - 1], encode)
         + [encode(params[|params| - 1].0) + "=" + encode(params[|params| - 1].1)]
  }

  /** `http_build_query($params)`: empty exactly when there are no
      parameters. */
  function Query(params: seq<(string, string)>, encode: string -> string): (r: string)
    ensures r == "" <==> params == []
  {
    var pairs := QueryPairs(params, encode);
    assert pairs != [] ==> Implode('&', pairs) != "" by {
      if pairs != [] {
        ImplodeStarts('&', pairs);
        assert pairs[0][|encode(params[0].0)|] == '=';
      }
    }
    Implode('&', pairs)
  }

  /** When the encoder never produces '&', cutting the query at every '&'
      gives back the `key=value` pairs, one per parameter, in order. */
  lemma QueryPairsOf(params: seq<(string, string)>, encode: string -> string)
    requires params != []
    requires forall s :: '&' !in encode(s)
    ensures Explode('&', Query(params, encode)) == QueryPairs(params, encode)
  {
    var pairs := QueryPairs(params, encode);
    forall i | 0 <= i < |pairs|
      ensures '&' !in pairs[i]
    {
      assert pairs[i] == encode(params[i].0) + "=" + encode(params[i].1);
    }
    ExplodeImplode('&', pairs);
  }

  /** The URL `request` hands to curl: base URL and endpoint, plus
      `?query` when the parameters are attached to the URL. */
  function RequestUrl(url: string, httpMethod: string, endpoint: string,
                      params: seq<(string, string)>, encode: string -> string): (r: string)
    ensures |BaseUrl(url) + endpoint| <= |r| && r[..|BaseUrl(url) + endpoint|] == BaseUrl(url) + endpoint
    ensures !QueryAttached(httpMethod, params) ==> r == BaseUrl(url) + endpoint
    ensures QueryAttached(httpMethod, params) ==>
      r[|BaseUrl(url) + endpoint|..] == "?" + Query(params, encode)
  {
    var target := BaseUrl(url) + endpoint;
    if QueryAttached(httpMethod, params) then target + "?" + Query(params, encode) else target
  }

  /** A request URL splits back at its first `?` into the address and the
      query, which is there exactly when the parameters were attached. */
  lemma RequestUrlSplits(url: string, httpMethod: string, endpoint: string,
                         params: seq<(string, string)>, encode: string -> string)
    requires '?' !in BaseUrl(url) + endpoint
    ensures SplitFirst(RequestUrl(url, httpMethod, endpoint, params, encode), '?') ==
      (BaseUrl(url) + endpoint,
       if QueryAttached(httpMethod, params) then Some(Query(params, encode)) else None)
  {
    if QueryAttached(httpMethod, params) {
      SplitFirstOf(BaseUrl(url) + endpoint, '?', Query(params, encode));
    }
  }

  /** A PUT never carries its parameters, neither in the URL nor in a body. */
  lemma PutDropsParams(url: string, endpoint: string,
                       params: seq<(string, string)>, encode: string -> string)
    ensures RequestUrl(url, "PUT", endpoint, params, encode) == BaseUrl(url) + endpoint
    ensures BodyOf("PUT", params) == NoBody
  {
  }

  /** `$content ? $content : null` over what the transfer returned
      (None for curl's false). */
  function ReplyOf(result: Option<string>): (r: Reply)
    ensures r != NoCurl
    ensures r.Content? <==> result.Some? && !Empty(result.value)
    ensures r.Content? ==> r.text == result.value
  {
    if result.Some? && !Empty(result.value) then Content(result.value) else NoContent
  }

  /** The cookie file `request` attaches: only a truthy `$this->cookie`. */
  function CookieOf(cookie: Option<string>): (c: Option<string>)
    ensures c.Some? <==> cookie.Some? && !Empty(cookie.value)
    ensures c.Some? ==> c == cookie
  {
    if cookie.Some? && !Empty(cookie.value) then cookie else None
  }

  /** The test closing `login`: a reply that is present must parse (through
      `parse`, which yields the document's text or None when it is not XML)
      to exactly "ok"; no reply at all counts as success. */
  predicate LoginAccepted(reply: Reply, parse: string -> Option<string>): (b: bool)
    ensures reply == NoContent ==> b
    ensures reply == NoCurl ==> b
    ensures reply.Content? && parse(reply.text).None? ==> !b
    ensures b && reply.Content? ==> parse(reply.text) == Some("ok")
  {
    !reply.Content? || parse(reply.text) == Some("ok")
  }

  /** Login fails exactly when the tracker answered something that is not
      the "ok" document; silence, an empty or "0" answer, or a missing curl
      all count as success. */
  lemma LoginDecision(curlAvailable: bool, result: Option<string>, parse: string -> Option<string>)
    ensures var reply := if curlAvailable then ReplyOf(result) else NoCurl;
      !LoginAccepted(reply, parse) <==>
        curlAvailable && result.Some? && !Empty(result.value) && parse(result.value) != Some("ok")
  {
  }

  // ---------------------------------------------------------------------
  // The issue table

  /** `$issue[$col]`: the row's value for a column, None (PHP's null) when
      the row has no entry for it. */
  function Lookup(issue: map<string, string>, col: string): Option<string>
  {
    if col in issue then Some(issue[col]) else None
  }

  /** `$issue[$col]` where it is used as text: null reads as "". */
  function LookupText(issue: map<string, string>, col: string): string
  {
    Lookup(issue, col).GetOr("")
  }

  /** The header labels: each column name as text. */
  function Labels(cols: seq<string>): seq<Event>
  {
    seq(|cols|, j requires 0 <= j < |cols| => Cdata(cols[j]))
  }

  /** The content of one body cell: a link to the issue in the ID column,
      the row's text everywhere else. */
  function CellContent(url: string, issue: map<string, string>, col: string): (r: Event)
    ensures Leaf(r)
    ensures r.ExternalLink? <==> col == "ID"
    ensures r.ExternalLink? ==>
      r.name == Lookup(issue, col) && (r.url == "" <==> Empty(LookupText(issue, col)))
    ensures r.Cdata? ==> r.text == LookupText(issue, col)
  {
    if col == "ID" then ExternalLink(IssueUrl(url, LookupText(issue, col)), Lookup(issue, col))
    else Cdata(LookupText(issue, col))
  }

  /** What the cells of one body row hold, one entry per column. */
  function Contents(url: string, issue: map<string, string>, cols: seq<string>): seq<Event>
  {
    seq(|cols|, j requires 0 <= j < |cols| => CellContent(url, issue, cols[j]))
  }

  /** What the body cells hold, one row per issue. */
  function Grid(url: string, issues: seq<map<string, string>>, cols: seq<string>): seq<seq<Event>>
  {
    seq(|issues|, i requires 0 <= i < |issues| => Contents(url, issues[i], cols))
  }

  /** Everything `renderIssueTable` sends to the renderer, in order. */
  function TableEvents(url: string, issues: seq<map<string, string>>, cols: seq<string>): (r: seq<Event>)
    ensures |r| >= 6
    ensures r[0] == TableOpen(|cols|) && r[1] == TheadOpen
    ensures r[|r| - 2] == TbodyClose && r[|r| - 1] == TableClose
  {
    Layout(Labels(cols), Grid(url, issues, cols))
  }

  /** The messages `getIssueUrl` shows while the table is drawn: the one
      error, for an ID cell with an issue id, when the URL is missing. */
  function CellMessages(url: string, issue: map<string, string>, col: string): (r: seq<string>)
    ensures r == [] || r == [UrlMissingMessage]
    ensures r != [] <==> col == "ID" && !Empty(LookupText(issue, col)) && Empty(url)
  {
    if col == "ID" && !Empty(LookupText(issue, col)) then UrlMessages(url) else []
  }

  /** At most one message per column, none at all once the URL is set. */
  function RowMessages(url: string, issue: map<string, string>, cols: seq<string>): (r: seq<string>)
    ensures |r| <= |cols|
    ensures forall m :: m in r ==> m == UrlMissingMessage
    ensures !Empty(url) ==> r == []
  {
    if cols == [] then []
    else RowMessages(url, issue, cols[..|cols| - 1]) + CellMessages(url, issue, cols[|cols| - 1])
  }

  /** Only the missing-URL error, and none once the URL is set. */
  function TableMessages(url: string, issues: seq<map<string, string>>, cols: seq<string>): (r: seq<string>)
    ensures forall m :: m in r ==> m == UrlMissingMessage
    ensures !Empty(url) ==> r == []
  {
    if issues == [] then []
    else TableMessages(url, issues[..|issues| - 1], cols) + RowMessages(url, issues[|issues| - 1], cols)
  }

  lemma RowMessagesStep(url: string, issue: map<string, string>, cols: seq<string>, k: nat)
    requires k < |cols|
    ensures RowMessages(url, issue, cols[..k + 1]) == RowMessages(url, issue, cols[..k]) + CellMessages(url, issue, cols[k])
  {
    assert cols[..k + 1][..k] == cols[..k];
  }

  lemma TableMessagesStep(url: string, issues: seq<map<string, string>>, cols: seq<string>, i: nat)
    requires i < |issues|
    ensures TableMessages(url, issues[..i + 1], cols) == TableMessages(url, issues[..i], cols) + RowMessages(url, issues[i], cols)
  {
    assert issues[..i + 1][..i] == issues[..i];
  }

  lemma AppendThree(s: seq<Event>, a: Event, b: Event, c: Event)
    ensures s + [a] + [b] + [c] == s + [a, b, c]
  {
  }

  /** The events before the body rows, emitted one by one. */
  lemma TableHead(s: seq<Event>, n: nat, header: seq<Event>)
    ensures s + [TableOpen(n)] + [TheadOpen] + header + [TheadClose] + [TbodyOpen]
      == s + ([TableOpen(n), TheadOpen] + header + [TheadClose, TbodyOpen])
  {
  }

  /** The whole table, emitted piece by piece. */
  lemma TableWhole(s: seq<Event>, n: nat, header: seq<Event>, body: seq<Event>)
    ensures s + ([TableOpen(n), TheadOpen] + header + [TheadClose, TbodyOpen]) + body + [TbodyClose] + [TableClose]
      == s + ([TableOpen(n), TheadOpen] + header + [TheadClose, TbodyOpen] + body + [TbodyClose, TableClose])
  {
  }

  /** A row: its open, then its cells, then its close, emitted one by one. */
  lemma RowWhole(s: seq<Event>, open: Event, cells: seq<Event>, close: Event)
    ensures s + [open] + cells + [close] == s + ([open] + cells + [close])
  {
  }

  /** The table is as long as its header part, three events per header
      cell, plus one row of `3 * |cols| + 2` events per issue. */
  lemma TableSize(url: string, issues: seq<map<string, string>>, cols: seq<string>)
    ensures |TableEvents(url, issues, cols)| == 3 * |cols| + 8 + |issues| * (3 * |cols| + 2)
  {
    RowsLength(Grid(url, issues, cols), |cols|);
  }

  /** In the whole table, header cell `j` holds label `cols[j]`, between
      its open and close. */
  lemma TableHeaderAt(url: string, issues: seq<map<string, string>>, cols: seq<string>, j: nat)
    requires j < |cols|
    ensures 3 + 3 * j + 3 <= |TableEvents(url, issues, cols)|
    ensures TableEvents(url, issues, cols)[3 + 3 * j..3 + 3 * j + 3] == [HeaderOpen, Cdata(cols[j]), HeaderClose]
  {
    LayoutHeaderAt(Labels(cols), Grid(url, issues, cols), j);
  }

  /** In the whole table, row `i` of the body is the row open, a cell for
      `issues[i]` in every column, and the row close. */
  lemma TableRowAt(url: string, issues: seq<map<string, string>>, cols: seq<string>, i: nat)
    requires i < |issues|
    ensures RowStart(|cols|, i) + RowWidth(|cols|) <= |TableEvents(url, issues, cols)|
    ensures TableEvents(url, issues, cols)[RowStart(|cols|, i)..RowStart(|cols|, i) + RowWidth(|cols|)]
      == BodyRow(Contents(url, issues[i], cols))
  {
    LayoutRowAt(Labels(cols), Grid(url, issues, cols), i);
  }

  /** In the whole table, body cell `j` of row `i` holds the link or text
      for `issues[i]` and `cols[j]`, between its open and close. */
  lemma TableCellAt(url: string, issues: seq<map<string, string>>, cols: seq<string>, i: nat, j: nat)
    requires i < |issues| && j < |cols|
    ensures CellStart(|cols|, i, j) + 3 <= |TableEvents(url, issues, cols)|
    ensures TableEvents(url, issues, cols)[CellStart(|cols|, i, j)..CellStart(|cols|, i, j) + 3]
      == [CellOpen, CellContent(url, issues[i], cols[j]), CellClose]
  {
    LayoutCellAt(Labels(cols), Grid(url, issues, cols), i, j);
  }

  /** Every block the table opens is closed again, innermost first: the
      renderer calls of `renderIssueTable` are balanced. */
  lemma TableBalanced(url: string, issues: seq<map<string, string>>, cols: seq<string>)
    ensures Balanced(TableEvents(url, issues, cols))
  {
    var grid := Grid(url, issues, cols);
    forall i, k | 0 <= i < |grid| && 0 <= k < |grid[i]|
      ensures Leaf(grid[i][k])
    {
      assert grid[i][k] == CellContent(url, issues[i], cols[k]);
    }
    LayoutBalanced(Labels(cols), grid);
  }

  // ---------------------------------------------------------------------
  // The helper object

  class Helper {
    /** The configuration: `url`, `user` and `password`. */
    const url: string
    const user: string
    const password: string
    /** `$this->cookie`: false (None) or the path of the cookie file. */
    var cookie: Option<string>
    /** Everything shown through `msg`, oldest first. */
    var messages: seq<string>
    /** Every request handed to curl, oldest first. */
    var sent: seq<HttpCall>

    constructor (url: string, user: string, password: string)
      ensures this.url == url && this.user == user && this.password == password
      ensures cookie == None && messages == [] && sent == []
    {
      this.url := url;
      this.user := user;
      this.password := password;
      cookie := None;
      messages := [];
      sent := [];
    }

    /** Whether `login` goes as far as asking the tracker. */
    predicate Configured(): (b: bool)
      ensures b <==> !Empty(user) && !Empty(password) && !Empty(url) && url != "/" && url != "0/"
    {
      !Empty(user) && !Empty(password) && !Empty(BaseUrl(url))
    }

    /** `getBaseUrl`: complains when no URL is configured. */
    method GetBaseUrl() returns (r: string)
      modifies this`messages
      ensures r == BaseUrl(url)
      ensures messages == old(messages) + UrlMessages(url)
    {
      if Empty(url) {
        messages := messages + [UrlMissingMessage];
      }
      r := if |url| > 0 && url[|url| - 1] == '/' then url[..|url| - 1] else url;
    }

    /** `getIssueUrl`. */
    method GetIssueUrl(id: string) returns (r: string)
      modifies this`messages
      ensures r == IssueUrl(url, id)
      ensures messages == old(messages) + (if Empty(id) then [] else UrlMessages(url))
    {
      if Empty(id) {
        return "";
      }
      var base := GetBaseUrl();
      r := base + "/issue/" + id;
    }

    /** `request`, up to the transfer: `result` is what the transfer
        returned (None for false). Records the call it hands to curl. */
    method Request(httpMethod: string, endpoint: string, params: seq<(string, string)>,
                   encode: string -> string, curlAvailable: bool, result: Option<string>)
      returns (content: Reply)
      modifies this`messages, this`sent
      ensures !curlAvailable ==>
        && content == NoCurl
        && messages == old(messages) + [CurlMissingMessage]
        && sent == old(sent)
      ensures curlAvailable ==>
        && content == ReplyOf(result)
        && messages == old(messages) + UrlMessages(url)
        && sent == old(sent) + [HttpCall(VerbOf(httpMethod), RequestUrl(url, httpMethod, endpoint, params, encode),
                                         BodyOf(httpMethod, params), CookieOf(cookie))]
    {
      if !curlAvailable {
        messages := messages + [CurlMissingMessage];
        return NoCurl;
      }
      var base := GetBaseUrl();
      var target := base + endpoint;
      var verb, body := Get, NoBody;
      if httpMethod == "POST" {
        verb := Post;
        if params != [] {
          body := Form(params);
        }
      } else if httpMethod == "PUT" {
        verb := Put;
      } else if params != [] {
        target := target + "?" + Query(params, encode);
      }
      var jar := None;
      if cookie.Some? && !Empty(cookie.value) {
        jar := cookie;
      }
      sent := sent + [HttpCall(verb, target, body, jar)];
      if result.Some? && !Empty(result.value) {
        content := Content(result.value);
      } else {
        content := NoContent;
      }
    }

    /** `login`: `tempFile` is what `tempnam` returned (None for false),
        `parse` reads a reply as XML. */
    method Login(tempFile: Option<string>, encode: string -> string, curlAvailable: bool,
                 result: Option<string>, parse: string -> Option<string>)
      returns (ok: bool)
      modifies this
      ensures !Configured() ==>
        && !ok
        && cookie == None
        && sent == old(sent)
        && messages == old(messages) + UrlMessages(url)
      ensures Configured() ==>
        var reply := if curlAvailable then ReplyOf(result) else NoCurl;
        && cookie == tempFile
        && ok == LoginAccepted(reply, parse)
        && sent == old(sent) + (if curlAvailable then [HttpCall(Post, BaseUrl(url) + LoginEndpoint,
               Form([("login", user), ("password", password)]), CookieOf(tempFile))] else [])
        && messages == old(messages) + (if curlAvailable then [] else [CurlMissingMessage])
                        + (if ok then [] else [LoginFailedMessage])
    {
      var base := GetBaseUrl();
      if Empty(user) || Empty(password) || Empty(base) {
        cookie := None;
        return false;
      }
      cookie := tempFile;
      var content := Request("POST", LoginEndpoint, [("login", user), ("password", password)],
                             encode, curlAvailable, result);
      if content.Content? && parse(content.text) != Some("ok") {
        messages := messages + [LoginFailedMessage];
        return false;
      }
      return true;
    }

    /** `renderIssueTable`: sends the table for `issues` (one map from
        column to text per issue) and `cols` to the renderer `r`. */
    method RenderIssueTable(r: Renderer, issues: seq<map<string, string>>, cols: seq<string>)
      modifies r, this`messages
      ensures r.events == old(r.events) + TableEvents(url, issues, cols)
      ensures messages == old(messages) + TableMessages(url, issues, cols)
    {
      ghost var start := r.events;
      r.Emit(TableOpen(|cols|));
      r.Emit(TheadOpen);
      RenderHeaderRow(r, cols);
      r.Emit(TheadClose);
      r.Emit(TbodyOpen);
      TableHead(start, |cols|, HeaderRow(Labels(cols)));
      RenderIssueRows(r, issues, cols);
      r.Emit(TbodyClose);
      r.Emit(TableClose);
      TableWhole(start, |cols|, HeaderRow(Labels(cols)), Rows(Grid(url, issues, cols)));
    }

    /** The body rows of `renderIssueTable`, one per issue, in order. */
    method RenderIssueRows(r: Renderer, issues: seq<map<string, string>>, cols: seq<string>)
      modifies r, this`messages
      ensures r.events == old(r.events) + Rows(Grid(url, issues, cols))
      ensures messages == old(messages) + TableMessages(url, issues, cols)
    {
      ghost var start, shown, grid := r.events, messages, Grid(url, issues, cols);
      var i := 0;
      while i < |issues|
        invariant 0 <= i <= |issues|
        invariant r.events == start + Rows(grid[..i])
        invariant messages == shown + TableMessages(url, issues[..i], cols)
      {
        RenderIssueRow(r, issues[i], cols);
        assert grid[i] == Contents(url, issues[i], cols);
        RowsStep(grid, i);
        TableMessagesStep(url, issues, cols, i);
        ConcatAssoc(start, Rows(grid[..i]), BodyRow(grid[i]));
        ConcatAssoc(shown, TableMessages(url, issues[..i], cols), RowMessages(url, issues[i], cols));
        i := i + 1;
      }
      assert grid[..i] == grid;
      assert issues[..i] == issues;
    }

    /** The header row of `renderIssueTable`: one header cell per column,
        holding the column's name. */
    method RenderHeaderRow(r: Renderer, cols: seq<string>)
      modifies r
      ensures r.events == old(r.events) + HeaderRow(Labels(cols))
    {
      ghost var start, labels := r.events, Labels(cols);
      r.Emit(RowOpen);
      var j := 0;
      while j < |cols|
        invariant 0 <= j <= |cols|
        invariant r.events == start + [RowOpen] + Cells(HeaderOpen, HeaderClose, labels[..j])
      {
        r.Emit(HeaderOpen);
        r.Emit(Cdata(cols[j]));
        r.Emit(HeaderClose);
        CellsStep(HeaderOpen, HeaderClose, labels, j);
        j := j + 1;
      }
      assert labels[..j] == labels;
      r.Emit(RowClose);
      RowWhole(start, RowOpen, Cells(HeaderOpen, HeaderClose, labels), RowClose);
    }

    /** What one body cell holds: a link to the issue in the ID column,
        the row's text in the others. */
    method RenderCellContent(issue: map<string, string>, col: string) returns (content: Event)
      modifies this`messages
      ensures content == CellContent(url, issue, col)
      ensures messages == old(messages) + CellMessages(url, issue, col)
    {
      if col == "ID" {
        var link := GetIssueUrl(LookupText(issue, col));
        content := ExternalLink(link, Lookup(issue, col));
      } else {
        content := Cdata(LookupText(issue, col));
      }
    }

    /** One body row of `renderIssueTable`: one cell per column, a link to
        the issue in the ID column, the row's text in the others. */
    method RenderIssueRow(r: Renderer, issue: map<string, string>, cols: seq<string>)
      modifies r, this`messages
      ensures r.events == old(r.events) + BodyRow(Contents(url, issue, cols))
      ensures messages == old(messages) + RowMessages(url, issue, cols)
    {
      ghost var start, shown, contents := r.events, messages, Contents(url, issue, cols);
      r.Emit(RowOpen);
      var k := 0;
      while k < |cols|
        invariant 0 <= k <= |cols|
        invariant r.events == start + [RowOpen] + Cells(CellOpen, CellClose, contents[..k])
        invariant messages == shown + RowMessages(url, issue, cols[..k])
      {
        RenderCell(r, issue, cols[k]);
        CellsStep(CellOpen, CellClose, contents, k);
        RowMessagesStep(url, issue, cols, k);
        ConcatAssoc(start + [RowOpen], Cells(CellOpen, CellClose, contents[..k]), [CellOpen, contents[k], CellClose]);
        ConcatAssoc(shown, RowMessages(url, issue, cols[..k]), CellMessages(url, issue, cols[k]));
        k := k + 1;
      }
      assert contents[..k] == contents;
      assert cols[..k] == cols;
      r.Emit(RowClose);
      RowWhole(start, RowOpen, Cells(CellOpen, CellClose, contents), RowClose);
    }

    /** One body cell: its open, its content, its close. */
    method RenderCell(r: Renderer, issue: map<string, string>, col: string)
      modifies r, this`messages
      ensures r.events == old(r.events) + [CellOpen, CellContent(url, issue, col), CellClose]
      ensures messages == old(messages) + CellMessages(url, issue, col)
    {
      r.Emit(CellOpen);
      var content := RenderCellContent(issue, col);
      r.Emit(content);
      r.Emit(CellClose);
      AppendThree(old(r.events), CellOpen, content, CellClose);
    }
  }
}
