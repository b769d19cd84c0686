# YouTrack plugin for DokuWiki — a Dafny model

This project models the core of the DokuWiki YouTrack plugin. The plugin's
`{{youtrack-list>FILTER|COL1, COL2}}` syntax lists the issues that a YouTrack
filter selects, as a wiki table with the chosen columns.

Two PHP files make up the core:

- `helper.php` — the helper component. It covers:
  - the tracker's base URL (`getBaseUrl`) and issue links (`getIssueUrl`);
  - how a REST request is addressed (`request`);
  - the login decision (`login`);
  - the issue table handed to the wiki's renderer (`renderIssueTable`).
- `syntax/list.php` — the syntax component. It covers:
  - `handle`, which cuts the directive into a filter and a column list, then flattens every issue the tracker returns into a map from column to text;
  - `render`, which shows either a "nothing found" paragraph or the issue table.

The model is five modules, one file each.

- `php.dfy` — module `Php`. The PHP built-ins the core relies on, with PHP's edge cases:
  - `empty` on strings, where both `""` and `"0"` are empty;
  - `trim`;
  - `explode`, with a limit of 2 and without one, plus `implode`;
  - `substr($s, 0, -2)`.
- `render.dfy` — module `DokuRenderer`.
  - The wiki renderer is a `Renderer` object that records every call as an `Event`, in order.
  - `Nesting` replays an event list against a stack of open blocks. This is the independent definition of "every opened block is closed, innermost first".
- `table.dfy` — module `TableLayout`. The shape of the table `renderIssueTable` draws, apart from what its cells hold:
  - header cells, body rows and body cells, with lemmas saying where each sits;
  - the proof that the blocks nest properly.
- `helper.dfy` — module `YouTrackHelper`. The helper object is a class `Helper`:
  - its configuration is constants;
  - `cookie` is a field;
  - the messages shown through `msg` and the requests handed to curl are recorded in sequence fields.

  Each method is proved against a specification function: `BaseUrl`, `IssueUrl`, `RequestUrl`, `LoginAccepted` and `TableEvents`.
- `list.dfy` — module `YouTrackList`.
  - The tracker's XML issues become the `Issue` and `Field` datatypes.
  - `handle` is a method with the source's three nested loops: issues, columns, fields. It is proved against the pure `ParseDirective`, `IssueRow` and `Warnings`.
  - `render` is a method proved against `Rendered`.

## Model

| member | source | states |
|---|---|---|
| Php.Trim | syntax/list.php:59 | `trim` gives a contiguous slice of its input. Everything cut off at either end is a trim character, and the result neither starts nor ends with one. |
| Php.TrimUnpadded | syntax/list.php:59 | A string without a trim character at either end is left unchanged by `trim`. |
| Php.TrimKeepsOut | syntax/list.php:59 | `trim` never introduces a character: a comma-free piece stays comma-free. |
| Php.SplitFirst | syntax/list.php:56-57 | `explode(c, s, 2)`: the first part holds no `c`. The second part is missing exactly when `s` has no `c`. Otherwise `s` is the first part, `c` and the second part, so later `c`s stay in the second part. |
| Php.SplitFirstOf | syntax/list.php:56-57 | Splitting `b + c + a` at its first `c` gives back `b` and `a` whenever `b` holds no `c`. |
| Php.Explode | syntax/list.php:59 | `explode(c, s)` yields one piece more than there are `c`s in `s`. No piece holds a `c`, and imploding the pieces with `c` gives `s` back. |
| Php.ExplodeImplode | syntax/list.php:59 | The other round trip: exploding `c`-free pieces imploded with `c` gives the same pieces, in order. |
| Php.DropLastTwo | syntax/list.php:56 | `substr($s, 0, -2)` is everything but the last two characters, and "" for a string shorter than two. |
| DokuRenderer.Renderer.Emit | helper.php:248-275 | A renderer call adds exactly one event at the end of what the renderer has received. |
| Php.Empty | syntax/list.php:58 | `""` is empty. A string that is empty under `empty` has at most one character, and a one-character string is empty exactly when it is `"0"`. |
| YouTrackHelper.UrlMessages | helper.php:145-147 | `getBaseUrl` shows a message exactly when the configured URL is empty under `empty`, and that message is the missing-URL error. |
| YouTrackHelper.BaseUrl | helper.php:148 | A URL ending in `/` loses exactly that one character; any other URL is unchanged. |
| YouTrackHelper.BaseUrlStripsOneSlash | helper.php:148 | Only one slash goes: `x//` becomes `x/`, which still ends in a slash. |
| YouTrackHelper.BaseUrlNoTrailingSlash | helper.php:139-148 | The promise "without ending slash" holds for every URL that does not end in two slashes. |
| YouTrackHelper.Helper.GetBaseUrl | helper.php:143-149 | Returns the base URL, and shows the "URL is not defined" error exactly when the configured URL is empty under `empty`. |
| YouTrackHelper.IssueUrl | helper.php:233-238 | The issue link is empty exactly when the id is empty under `empty`. |
| YouTrackHelper.IssueUrlParts | helper.php:237 | A link for a non-empty id is the base URL, then `/issue/`, then the id. |
| YouTrackHelper.IssueUrlInjective | helper.php:237 | Two non-empty ids with the same link are the same id. |
| YouTrackHelper.Helper.GetIssueUrl | helper.php:233-238 | Returns the issue link. It consults the base URL, and so may show its error, only for a non-empty id. |
| YouTrackHelper.VerbOf | helper.php:105-119 | Only `"POST"` and `"PUT"` select their own verb. Every other method is sent as a GET. |
| YouTrackHelper.QueryAttached | helper.php:115-118 | The parameters go into the URL exactly for a request sent as a GET that has parameters. |
| YouTrackHelper.QueryPairs | helper.php:117 | One pair per parameter, in order: pair `i` is the encoded key `i`, then `=`, then the encoded value `i`. |
| YouTrackHelper.Query | helper.php:117 | The query string is empty exactly when there are no parameters. |
| YouTrackHelper.QueryPairsOf | helper.php:117 | If the encoding never yields `&`, cutting the query string at every `&` gives back the pairs, in order. |
| YouTrackHelper.BodyOf | helper.php:105-114 | A form body is sent exactly for a POST with parameters, and it holds those parameters. |
| YouTrackHelper.RequestUrl | helper.php:98-119 | The request URL starts with the base URL and endpoint. Only for a method other than POST and PUT with parameters does `?` and the query follow; otherwise nothing follows. |
| YouTrackHelper.RequestUrlSplits | helper.php:98-119 | Cut at its first `?`, a request URL gives the address and the query. The query is present exactly when parameters are attached to the URL. |
| YouTrackHelper.PutDropsParams | helper.php:112-114 | A PUT sends its parameters neither in the URL nor in a body. |
| YouTrackHelper.ReplyOf | helper.php:134 | The reply is the transfer's content exactly when that content is truthy, and null otherwise. |
| YouTrackHelper.CookieOf | helper.php:127-130 | The cookie file is attached exactly when `$this->cookie` is truthy. |
| YouTrackHelper.Helper.Request | helper.php:92-135 | Without curl: the curl error is shown and nothing is sent. With curl: exactly one call is recorded, with the verb, URL, body and cookie above, and the reply is the truthy content or null. |
| YouTrackHelper.LoginAccepted | helper.php:178 | A missing curl or an empty reply counts as success. A reply that does not parse counts as failure. An accepted reply with content parses to "ok". |
| YouTrackHelper.LoginDecision | helper.php:178-182 | Login fails exactly when curl is there, the reply is truthy and it does not parse to "ok". An empty, missing or "0" reply, or a missing curl, counts as success. |
| YouTrackHelper.Helper.Configured | helper.php:158-162 | Login goes ahead exactly when the user and password are non-empty under `empty`, and the URL is non-empty and neither `/` nor `0/`, whose base URL is empty. |
| YouTrackHelper.Helper.Login | helper.php:157-183 | With an empty user, password or base URL: returns false, sets the cookie to false and sends nothing. Otherwise the cookie is the temp file. With curl, one POST to `/rest/user/login` carries user and password. Without curl, nothing is sent, the curl error is shown and the login counts as success. The result is `LoginAccepted`, and the login error is shown exactly on failure. |
| YouTrackHelper.Helper.constructor | helper.php:15 | A fresh helper has no cookie, has shown nothing and has sent nothing. |
| TableLayout.Cells | helper.php:251-255 | Wrapping `n` contents in cells takes `3 * n` events. |
| TableLayout.CellsAt | helper.php:251-255 | Entry `j` sits at `3 * j` among the cells, between the cell's open and close. |
| TableLayout.CellsStep | helper.php:251-255 | One more column adds exactly one more cell at the end. |
| TableLayout.RowsStep | helper.php:260-272 | One more issue adds exactly one more body row at the end. |
| TableLayout.RowsLength | helper.php:260-272 | With `w` cells per row, the body takes `3 * w + 2` events per row. |
| TableLayout.RowsAppend | helper.php:260-272 | The body rows of two runs of issues are the rows of the first run, then those of the second. |
| TableLayout.RowsAt | helper.php:260-272 | Body row `i` comes right after the rows of the issues before it. |
| TableLayout.LayoutHeaderAt | helper.php:248-257 | Header cell `j` holds label `j`, between the header cell's open and close. |
| TableLayout.LayoutRowAt | helper.php:258-275 | In a table whose rows have one entry per label, body row `i` sits at `RowStart`. |
| TableLayout.LayoutCellAt | helper.php:262-270 | Body cell `j` of row `i` holds entry `j` of row `i`, between the cell's open and close. |
| TableLayout.CellsNeutral | helper.php:251-255 | Cells around leaf events leave the stack of open blocks as it was. |
| TableLayout.BodyRowNeutral | helper.php:261-271 | A body row of leaves leaves the stack of open blocks as it was. |
| TableLayout.RowsNeutral | helper.php:260-272 | All body rows together leave the stack of open blocks as it was. |
| TableLayout.HeadNeutral | helper.php:249-257 | The table head leaves the stack of open blocks as it was. |
| TableLayout.BodyNeutral | helper.php:258-274 | The table body leaves the stack of open blocks as it was. |
| TableLayout.LayoutBalanced | helper.php:247-276 | A table whose labels and contents are leaves is balanced: every block opened is closed, innermost first. |
| YouTrackHelper.CellContent | helper.php:262-270 | A cell's content opens and closes no block. It is a link exactly in the ID column. A link is named by the row's ID entry, and its target is empty exactly when the ID is. Any other column gets its text. |
| YouTrackHelper.TableEvents | helper.php:247-276 | The table has at least six events. It opens with the table and the head and ends by closing the body and the table. |
| YouTrackHelper.CellMessages | helper.php:264-266 | A cell shows at most one message, the missing-URL error. It shows it exactly for a non-empty ID cell when the URL is empty. |
| YouTrackHelper.RowMessages | helper.php:261-271 | A row shows at most one message per column. All are the missing-URL error, and there are none when the URL is set. |
| YouTrackHelper.TableMessages | helper.php:247-276 | The table shows only the missing-URL error, and nothing at all when the URL is set. |
| YouTrackHelper.TableSize | helper.php:247-276 | With `n` columns, the table takes `3 * n + 8` events plus `3 * n + 2` per issue: one header cell per column and one body cell per column in every row. |
| YouTrackHelper.TableHeaderAt | helper.php:248-257 | Header cell `j` holds the label `cols[j]`, in column order. |
| YouTrackHelper.TableRowAt | helper.php:258-275 | Body row `i` belongs to `issues[i]`, in issue order, with one cell per column. |
| YouTrackHelper.TableCellAt | helper.php:262-270 | Body cell `(i, j)` holds an external link to `getIssueUrl` of the issue's ID entry in the ID column, and the entry's text as cdata in every other column. |
| YouTrackHelper.TableBalanced | helper.php:247-276 | Every renderer block that `renderIssueTable` opens is closed again, innermost first. |
| YouTrackHelper.Helper.RenderIssueTable | helper.php:247-276 | The renderer receives exactly `TableEvents`, after what it already had. The messages shown are those of `getIssueUrl` for each non-empty ID cell, in order. |
| YouTrackHelper.Helper.RenderHeaderRow | helper.php:250-256 | The header row: one header cell per column, holding the column's name, in order. |
| YouTrackHelper.Helper.RenderIssueRows | helper.php:260-272 | One body row per issue, in order. |
| YouTrackHelper.Helper.RenderIssueRow | helper.php:261-271 | One body row with one cell per column, in order. |
| YouTrackHelper.Helper.RenderCell | helper.php:263-269 | One body cell: its open, the cell's content, its close. |
| YouTrackHelper.Helper.RenderCellContent | helper.php:264-268 | The ID column gets a link, with the row's ID entry as its name, and any other column its text. Only the ID column can show messages. |
| YouTrackList.TrimAll | syntax/list.php:59 | `array_map('trim', ...)` keeps the number and order of the pieces and trims each. |
| YouTrackList.TrimAllClean | syntax/list.php:59 | Trimmed comma-free pieces are comma-free and need no further trimming. |
| YouTrackList.Columns | syntax/list.php:59 | There is one column more than there are commas in the column part. No column label holds a comma or starts or ends with a trim character. |
| YouTrackList.TrimAllUnpadded | syntax/list.php:59 | Trimming labels that need no trimming changes nothing. |
| YouTrackList.ColumnsOf | syntax/list.php:59 | Writing comma-free, unpadded labels out with commas and reading them back gives the same labels, in the same order. |
| YouTrackList.ParseDirective | syntax/list.php:56-59 | An accepted directive has a filter that is non-empty under `empty` and holds no bar character, and at least one column. |
| YouTrackList.ParseDirectiveOf | syntax/list.php:56-59 | For a whole directive, the filter is everything up to the first bar character and the columns come from everything after it, with later `>` and bar characters kept. It is rejected exactly when either part is empty under `empty`, so `"0"` too. |
| YouTrackList.ParseDirectiveNoBar | syntax/list.php:57-58 | A directive without a bar character is rejected. |
| YouTrackList.IsTimestamp | syntax/list.php:84 | A timestamp is 13 or 14 characters whose first 13 are digits. An all-digit string is one exactly when it has 13 digits. |
| YouTrackList.DecimalValue | syntax/list.php:85 | A digit string of length `n` spells a number below `10^n`. |
| YouTrackList.DecimalValueAppend | syntax/list.php:85 | Reading two digit strings one after the other is reading the first shifted by the length of the second. |
| YouTrackList.Seconds | syntax/list.php:85 | `$value/1000` truncated: the seconds are the milliseconds divided by 1000, rounded down. |
| YouTrackList.SecondsDropMillis | syntax/list.php:84-85 | The time given to `date` for a 13-digit millisecond timestamp is its first ten digits read as seconds. |
| YouTrackList.LastMatch | syntax/list.php:77-93 | Finds the last field with the column's name: no later field has that name. None means no field has it. |
| YouTrackList.CellValue | syntax/list.php:84-91 | A timestamp value becomes the formatted date. Otherwise the text is the full name when that is non-empty under `empty`, and the value when it is not. |
| YouTrackList.ColumnEntry | syntax/list.php:73-100 | The ID column always holds the issue's id. Any other column has an entry exactly when some field has its name. |
| YouTrackList.IssueRow | syntax/list.php:73-100 | An issue's map has entries only for listed columns. |
| YouTrackList.RowContents | syntax/list.php:73-100 | An issue's map has only listed columns. The ID column holds the issue's id even when a field is called ID. Any other column holds the text of its last matching field (date, else full name, else value), or has no entry when no field matches. |
| YouTrackList.RowWarningsExactly | syntax/list.php:95-99 | An error naming the issue is shown for a column exactly when that column has no entry in the issue's map. |
| YouTrackList.RowWarnings | syntax/list.php:95-99 | At most one error per column. Each names the issue and a listed column other than ID that no field has. |
| YouTrackList.WarnedColumns | syntax/list.php:95-99 | Every listed column other than ID that no field has gets its error. |
| YouTrackList.Warnings | syntax/list.php:70-103 | Every error names a listed column other than ID. |
| YouTrackList.WarningOrigin | syntax/list.php:70-103 | Every error comes from the row of one of the issues. |
| YouTrackList.ScannedStep | syntax/list.php:77-93 | Scanning one more field: a field with the column's name sets the column's text, and any other field changes nothing. |
| YouTrackList.ScanFields | syntax/list.php:77-93 | `$fieldFound` says whether a field has the column's name. The map gains the text of the last such field and is otherwise unchanged. |
| YouTrackList.ColumnStep | syntax/list.php:73-100 | One pass of the column loop: the field scan, then the ID override or the missing-field error, extends the map and the errors by exactly one column. |
| YouTrackList.FlattenIssue | syntax/list.php:73-100 | The column loop for one issue yields exactly `IssueRow` and `RowWarnings`. |
| YouTrackList.WarningsStep | syntax/list.php:70-103 | One more issue appends that issue's errors after those of the issues before it. |
| YouTrackList.FlattenIssues | syntax/list.php:70-103 | One map per issue, in input order; the errors come issue by issue. |
| YouTrackList.Fetched | syntax/list.php:61-68 | Without the helper plugin the issue list is empty. A false result can only come from the helper's `getIssues`. |
| YouTrackList.Handle | syntax/list.php:52-106 | A rejected directive, or a false from `getIssues`, gives false and no errors. Otherwise the columns, plus one map per issue in order. Without the helper plugin the issue list is empty rather than false. |
| YouTrackList.Rendered | syntax/list.php:119-130 | The output has at least three events. It starts with a paragraph exactly when there are no issues. |
| YouTrackList.RenderedShape | syntax/list.php:116-131 | Either way the output is balanced and non-empty. It starts with a paragraph exactly when there are no issues, and with the table otherwise. |
| YouTrackList.Render | syntax/list.php:116-131 | With no issues, the "nothing found" paragraph and no table or messages. Otherwise exactly what `renderIssueTable` sends. It always returns true. |

## Left out

- The curl transport is not modelled: connection and timeout options, `curl_exec` and `curl_close` (helper.php:100-103, 132-133). `Request` takes whether curl is available and what the transfer returned as parameters, and records the call it would make.
- `simplexml_load_string` is foreign XML parsing. The issues `getIssues` returns are `Issue` and `Field` values, and `login`'s reading of the reply is a parameter `parse`. A missing attribute or child reads as "".
- `getIssue` and `getIssues` only sequence `login`, `request` and `logout` over I/O. `handle` takes `getIssues` as a function parameter.
- `tempnam` and `logout`, with `unlink` and `die`, are file I/O. The temp file's name is a parameter of `Login`.
- `getConf`, PHP's `date` and the language string `$lang['nothingfound']` are parameters.
- `http_build_query` is modelled as `key=value` pairs joined by `&`, with the URL encoding as a function parameter. Nested arrays are not modelled.
- `$issue[$col]` for a column missing from an issue's map is null (helper.php:265, 267). The link's name keeps it as `None`, but `cdata(null)` is recorded as `Cdata("")`, since the renderer prints null as the empty string.
- `msg` is recorded as the message text only. Its error level is left out.
- The missing-field error of `handle` (syntax/list.php:98) is recorded as a `FieldNotFound` value holding the column and the issue id. The wording of its text is not modelled.
- Loose comparison: the field name is compared to the column with `==`, and so is the column to `'ID'`. Both are string equality here, so PHP's numeric-string comparison (`"1e1" == "10"`) is not modelled.
- `$value / 1000` is an int when the value is a multiple of 1000 and a float otherwise. `date` takes an int, so the float is truncated. Either way the seconds are the floor quotient, which `Seconds` computes.
  - `/^\d{13}$/` also matches 13 digits followed by one final newline, because `$` matches before it. `IsTimestamp` accepts that form and reads its first 13 digits.
- `render`'s `$mode` is not consulted. It is given the data `handle` produced, since the wiki does not render a false result. Its `loadHelper` call is taken to succeed.
- Plugin plumbing with no logic is left out: `getMethods`, `getType`, `getPType`, `getSort` and the lexer pattern in `connectTo`.
- The doc comment of `getBaseUrl` (helper.php:139) says the URL comes "without ending slash". The code removes only one slash, and the model follows the code: `BaseUrlStripsOneSlash`.
