/** The `{{youtrack-list>FILTER|COLUMNS}}` syntax (syntax/list.php): the
    handler that cuts the directive apart and flattens every issue the
    tracker returns into a map from column to text, and the renderer that
    shows either a "nothing found" paragraph or the issue table. */
module YouTrackList {
  import opened Php
  import opened DokuRenderer
  import opened YouTrackHelper

  /** The opening the wiki's lexer looks for; a match ends in "}}". */
  const Opening := "{{youtrack-list>"

  /** One child of an issue element in the tracker's reply: its `name`
      attribute, the text of its `value` child and that child's `fullName`
      attribute. A missing attribute or child reads as "". */
  datatype Field = Field(name: string, value: string, fullName: string)

  /** One issue element: its `id` attribute and its children, in order. */
  datatype Issue = Issue(id: string, fields: seq<Field>)

  /** A parsed directive: the tracker filter and the column labels. */
  datatype Directive = Directive(filter: string, cols: seq<string>)

  /** What `handle` gives the renderer: one map per issue, and the columns. */
  datatype HandleData = HandleData(rows: seq<map<string, string>>, cols: seq<string>)

  /** The error shown (at error level) when an issue has no field for a
      column: it names the column and the issue. */
  datatype Warning = FieldNotFound(col: string, issueId: string)

  // ---------------------------------------------------------------------
  // Parsing the directive

  /** `array_map('trim', ...)`. */
  function TrimAll(pieces: seq<string>): (r: seq<string>)
    ensures |r| == |pieces|
    ensures forall i :: 0 <= i < |r| ==> r[i] == Trim(pieces[i])
  {
    if pieces == [] then [] else [Trim(pieces[0])] + TrimAll(pieces[1..])
  }

  /** Trimmed comma-free pieces are comma-free and need no more trimming. */
  lemma TrimAllClean(pieces: seq<string>)
    requires forall i :: 0 <= i < |pieces| ==> ',' !in pieces[i]
    ensures forall i :: 0 <= i < |pieces| ==> ',' !in TrimAll(pieces)[i] && Unpadded(TrimAll(pieces)[i])
  {
    forall i | 0 <= i < |pieces|
      ensures ',' !in TrimAll(pieces)[i] && Unpadded(TrimAll(pieces)[i])
    {
      TrimKeepsOut(pieces[i], ',');
    }
  }

  /** The column part cut at every comma, each piece trimmed. */
  function Columns(text: string): (r: seq<string>)
    ensures |r| == multiset(text)[','] + 1
    ensures forall i :: 0 <= i < |r| ==> ',' !in r[i] && Unpadded(r[i])
  {
    var pieces := Explode(',', text);
    TrimAllClean(pieces);
    TrimAll(pieces)
  }

  /** Trimming labels that need no trimming changes nothing. */
  lemma {:induction false} TrimAllUnpadded(labels: seq<string>)
    requires forall i :: 0 <= i < |labels| ==> Unpadded(labels[i])
    ensures TrimAll(labels) == labels
  {
    if labels != [] {
      TrimUnpadded(labels[0]);
      TrimAllUnpadded(labels[1..]);
    }
  }

  /** Writing comma-free, unpadded labels out with commas and reading them
      back gives the same labels, in the same order. */
  lemma ColumnsOf(labels: seq<string>)
    requires |labels| >= 1
    requires forall i :: 0 <= i < |labels| ==> ',' !in labels[i] && Unpadded(labels[i])
    ensures Columns(Implode(',', labels)) == labels
  {
    ExplodeImplode(',', labels);
    TrimAllUnpadded(labels);
  }

  /** `handle`'s first three lines: drop the closing "}}", keep what follows
      the first '>', split that at the first '|'. None is `handle`'s false:
      an empty filter, no '|', or an empty column part. */
  function ParseDirective(m: string): (r: Option<Directive>)
    ensures r.Some? ==> !Empty(r.value.filter) && '|' !in r.value.filter && |r.value.cols| >= 1
  {
    var rest := SplitFirst(DropLastTwo(m), '>').1.GetOr("");
    var (filter, cols) := SplitFirst(rest, '|');
    if Empty(filter) || cols.None? || Empty(cols.value) then None
    else Some(Directive(filter, Columns(cols.value)))
  }

  /** A whole directive: the filter is everything up to the first '|', the
      columns everything after it; later '>' and '|' stay in their part.
      Either part being empty under PHP's `empty` (so "0" too) rejects it. */
  lemma ParseDirectiveOf(filter: string, colText: string)
    requires '|' !in filter
    ensures ParseDirective(Opening + filter + "|" + colText + "}}")
      == if Empty(filter) || Empty(colText) then None else Some(Directive(filter, Columns(colText)))
  {
    var m := Opening + filter + "|" + colText + "}}";
    var inner := filter + "|" + colText;
    assert DropLastTwo(m) == "{{youtrack-list" + ">" + inner;
    SplitFirstOf("{{youtrack-list", '>', inner);
    assert inner == filter + ['|'] + colText;
    SplitFirstOf(filter, '|', colText);
  }

  /** A directive without '|' is rejected. */
  lemma ParseDirectiveNoBar(filter: string)
    requires '|' !in filter
    ensures ParseDirective(Opening + filter + "}}") == None
  {
    var m := Opening + filter + "}}";
    assert DropLastTwo(m) == "{{youtrack-list" + ">" + filter;
    SplitFirstOf("{{youtrack-list", '>', filter);
  }

  // ---------------------------------------------------------------------
  // Timestamps

  predicate IsDigit(c: char)
  {
    '0' <= c <= '9'
  }

  predicate AllDigits(s: string)
  {
    forall i :: 0 <= i < |s| ==> IsDigit(s[i])
  }

  /** The pattern `^\d{13}$`: thirteen digits, where `$` also matches
      before a single final newline. */
  predicate IsTimestamp(v: string): (b: bool)
    ensures b ==> 13 <= |v| <= 14 && AllDigits(v[..13])
    ensures AllDigits(v) ==> (b <==> |v| == 13)
  {
    (|v| == 13 && AllDigits(v)) || (|v| == 14 && AllDigits(v[..13]) && v[13] == '\n')
  }

  function Pow10(n: nat): (p: nat)
    ensures p >= 1
  {
    if n == 0 then 1 else 10 * Pow10(n - 1)
  }

  /** The number a digit string spells in base ten. */
  function DecimalValue(s: string): (n: nat)
    requires AllDigits(s)
    ensures n < Pow10(|s|)
  {
    if s == [] then 0
    else
      var d := s[|s| - 1] as int - '0' as int;
      var front := DecimalValue(s[..|s| - 1]);
      DigitBound(front, d, Pow10(|s| - 1));
      front * 10 + d
  }

  /** Reading two digit strings one after the other. */
  lemma {:induction false} DecimalValueAppend(a: string, b: string)
    requires AllDigits(a) && AllDigits(b)
    ensures AllDigits(a + b)
    ensures DecimalValue(a + b) == DecimalValue(a) * Pow10(|b|) + DecimalValue(b)
    decreases |b|
  {
    if b == [] {
      assert a + b == a;
    } else {
      var front := b[..|b| - 1];
      assert (a + b)[..|a + b| - 1] == a + front;
      assert (a + b)[|a + b| - 1] == b[|b| - 1];
      DecimalValueAppend(a, front);
      var d := b[|b| - 1] as int - '0' as int;
      var x, p, y := DecimalValue(a), Pow10(|front|), DecimalValue(front);
      assert DecimalValue(a + b) == (x * p + y) * 10 + d;
      assert DecimalValue(b) == y * 10 + d;
      assert Pow10(|b|) == p * 10;
      DigitRegroup(x, p, y, d);
    }
  }

  lemma DigitBound(front: nat, d: int, p: nat)
    requires front < p && 0 <= d < 10
    ensures front * 10 + d < 10 * p
  {
  }

  lemma DigitRegroup(x: int, p: int, y: int, d: int)
    ensures (x * p + y) * 10 + d == x * (p * 10) + (y * 10 + d)
  {
  }

  /** `$value / 1000` handed to `date`, which takes whole seconds. */
  function Seconds(v: string): (r: nat)
    requires IsTimestamp(v)
    ensures r * 1000 <= DecimalValue(v[..13]) < r * 1000 + 1000
  {
    DecimalValue(v[..13]) / 1000
  }

  /** The date shown for a timestamp is that of its first ten digits read
      as seconds: the milliseconds are cut off. */
  lemma SecondsDropMillis(v: string)
    requires IsTimestamp(v)
    ensures AllDigits(v[..10])
    ensures Seconds(v) == DecimalValue(v[..10])
  {
    var t := v[..13];
    assert t == v[..10] + v[10..13];
    DecimalValueAppend(v[..10], v[10..13]);
    var hi, lo := DecimalValue(v[..10]), DecimalValue(v[10..13]);
    assert Pow10(3) == 1000;
    assert DecimalValue(t) == hi * 1000 + lo;
    assert lo < 1000;
  }

  // ---------------------------------------------------------------------
  // Flattening one issue

  /** The text a matching field puts in its column: a date for a
      millisecond timestamp, else a non-empty full name, else the value. */
  function CellValue(f: Field, dateFormat: string, date: (string, int) -> string): (r: string)
    ensures IsTimestamp(f.value) ==> r == date(dateFormat, Seconds(f.value))
    ensures !IsTimestamp(f.value) ==> r == f.fullName || r == f.value
    ensures !IsTimestamp(f.value) && Empty(f.fullName) ==> r == f.value
    ensures !IsTimestamp(f.value) && !Empty(f.fullName) ==> r == f.fullName
  {
    if IsTimestamp(f.value) then date(dateFormat, Seconds(f.value))
    else if !Empty(f.fullName) then f.fullName
    else f.value
  }

  /** The position of the last field named `col`; the scan has no break,
      so a later field of the same name overwrites an earlier one. */
  function LastMatch(fields: seq<Field>, col: string): (r: Option<nat>)
    ensures r.Some? ==> r.value < |fields| && fields[r.value].name == col
    ensures r.Some? ==> forall j :: r.value < j < |fields| ==> fields[j].name != col
    ensures r.None? ==> forall j :: 0 <= j < |fields| ==> fields[j].name != col
  {
    if fields == [] then None
    else if fields[|fields| - 1].name == col then Some(|fields| - 1)
    else LastMatch(fields[..|fields| - 1], col)
  }

  /** The entry column `col` ends with: the issue's id in the ID column
      (set after the scan), else the last matching field's text, else none. */
  function ColumnEntry(issue: Issue, col: string, dateFormat: string, date: (string, int) -> string): (r: Option<string>)
    ensures col == "ID" ==> r == Some(issue.id)
    ensures col != "ID" ==>
      (r.Some? <==> exists k :: 0 <= k < |issue.fields| && issue.fields[k].name == col)
  {
    if col == "ID" then Some(issue.id)
    else match LastMatch(issue.fields, col)
      case Some(k) => Some(CellValue(issue.fields[k], dateFormat, date))
      case None => None
  }

  /** `$issueData` after the columns `cols` have been processed in order. */
  function IssueRow(issue: Issue, cols: seq<string>, dateFormat: string, date: (string, int) -> string): (r: map<string, string>)
    ensures forall c :: c in r ==> c in cols
  {
    if cols == [] then map[]
    else
      var m := IssueRow(issue, cols[..|cols| - 1], dateFormat, date);
      var col := cols[|cols| - 1];
      match ColumnEntry(issue, col, dateFormat, date)
      case Some(v) => m[col := v]
      case None => m
  }

  /** The errors shown for one issue, in column order. */
  function RowWarnings(issue: Issue, cols: seq<string>): (r: seq<Warning>)
    ensures |r| <= |cols|
    ensures forall w :: w in r ==>
      w.issueId == issue.id && w.col in cols && w.col != "ID" && LastMatch(issue.fields, w.col).None?
  {
    if cols == [] then []
    else
      var col := cols[|cols| - 1];
      RowWarnings(issue, cols[..|cols| - 1])
      + (if col != "ID" && LastMatch(issue.fields, col).None? then [FieldNotFound(col, issue.id)] else [])
  }

  /** The errors shown for all issues, issue by issue. */
  function Warnings(issues: seq<Issue>, cols: seq<string>): (r: seq<Warning>)
    ensures forall w :: w in r ==> w.col in cols && w.col != "ID"
  {
    if issues == [] then []
    else Warnings(issues[..|issues| - 1], cols) + RowWarnings(issues[|issues| - 1], cols)
  }

  /** What an issue's map holds: only listed columns; the ID column is the
      issue's id; any other column is the text of its last matching field,
      and has no entry when no field matches. */
  lemma {:induction false} RowContents(issue: Issue, cols: seq<string>, dateFormat: string, date: (string, int) -> string)
    ensures forall c :: c in IssueRow(issue, cols, dateFormat, date) ==> c in cols
    ensures "ID" in cols ==> "ID" in IssueRow(issue, cols, dateFormat, date)
                             && IssueRow(issue, cols, dateFormat, date)["ID"] == issue.id
    ensures forall c :: c in cols && c != "ID" && LastMatch(issue.fields, c).Some? ==>
              c in IssueRow(issue, cols, dateFormat, date)
              && IssueRow(issue, cols, dateFormat, date)[c] == CellValue(issue.fields[LastMatch(issue.fields, c).value], dateFormat, date)
    ensures forall c :: c in cols && c != "ID" && LastMatch(issue.fields, c).None? ==>
              c !in IssueRow(issue, cols, dateFormat, date)
  {
    if cols != [] {
      var front, col := cols[..|cols| - 1], cols[|cols| - 1];
      RowContents(issue, front, dateFormat, date);
      var m := IssueRow(issue, front, dateFormat, date);
      var e := ColumnEntry(issue, col, dateFormat, date);
      assert IssueRow(issue, cols, dateFormat, date) == if e.Some? then m[col := e.value] else m;
      assert forall c :: c in cols <==> c in front || c == col;
    }
  }

  /** An error is shown for exactly the columns left without an entry, and
      it names the issue. */
  lemma {:induction false} RowWarningsExactly(issue: Issue, cols: seq<string>, dateFormat: string, date: (string, int) -> string)
    ensures forall w :: w in RowWarnings(issue, cols) ==>
              w.issueId == issue.id && w.col in cols && w.col !in IssueRow(issue, cols, dateFormat, date)
    ensures forall c :: c in cols && c !in IssueRow(issue, cols, dateFormat, date) ==>
              FieldNotFound(c, issue.id) in RowWarnings(issue, cols)
  {
    RowContents(issue, cols, dateFormat, date);
    WarnedColumns(issue, cols);
  }

  /** Every column other than ID that no field names gets its warning. */
  lemma {:induction false} WarnedColumns(issue: Issue, cols: seq<string>)
    ensures forall c :: c in cols && c != "ID" && LastMatch(issue.fields, c).None? ==>
              FieldNotFound(c, issue.id) in RowWarnings(issue, cols)
  {
    if cols != [] {
      var front, col := cols[..|cols| - 1], cols[|cols| - 1];
      WarnedColumns(issue, front);
      assert forall c :: c in cols <==> c in front || c == col;
    }
  }

  // ---------------------------------------------------------------------
  // handle

  /** The issues `handle` goes on with: none when the helper plugin is not
      loaded, otherwise what `getIssues` gave (None for its false). */
  function Fetched(helperLoaded: bool, getIssues: string -> Option<seq<Issue>>, filter: string): (r: Option<seq<Issue>>)
    ensures !helperLoaded ==> r == Some([])
    ensures r.None? ==> helperLoaded
  {
    if helperLoaded then getIssues(filter) else Some([])
  }

  /** `handle`: `getIssues` stands for the helper's call to the tracker,
      `dateFormat` for the configured date format and `date` for PHP's
      `date`. None is `handle`'s false; `warnings` are the errors shown. */
  method Handle(m: string, helperLoaded: bool, getIssues: string -> Option<seq<Issue>>,
                dateFormat: string, date: (string, int) -> string)
    returns (data: Option<HandleData>, warnings: seq<Warning>)
    ensures ParseDirective(m).None? ==> data == None && warnings == []
    ensures ParseDirective(m).Some? ==>
      var d := ParseDirective(m).value;
      match Fetched(helperLoaded, getIssues, d.filter)
      case None => data == None && warnings == []
      case Some(issues) =>
        && data.Some?
        && data.value.cols == d.cols
        && |data.value.rows| == |issues|
        && (forall i :: 0 <= i < |issues| ==> data.value.rows[i] == IssueRow(issues[i], d.cols, dateFormat, date))
        && warnings == Warnings(issues, d.cols)
  {
    var parsed := ParseDirective(m);
    if parsed.None? {
      return None, [];
    }
    var filter, cols := parsed.value.filter, parsed.value.cols;
    var fetched: Option<seq<Issue>> := Some([]);
    if helperLoaded {
      fetched := getIssues(filter);
    }
    if fetched.None? {
      return None, [];
    }
    var rows;
    rows, warnings := FlattenIssues(fetched.value, cols, dateFormat, date);
    data := Some(HandleData(rows, cols));
  }

  /** Every warning comes from one of the issues' rows. */
  lemma {:induction false} WarningOrigin(issues: seq<Issue>, cols: seq<string>, w: Warning)
    requires w in Warnings(issues, cols)
    ensures exists i :: 0 <= i < |issues| && w in RowWarnings(issues[i], cols)
  {
    var n := |issues| - 1;
    if w !in RowWarnings(issues[n], cols) {
      WarningOrigin(issues[..n], cols, w);
      var i :| 0 <= i < n && w in RowWarnings(issues[..n][i], cols);
      assert issues[..n][i] == issues[i];
    }
  }

  /** One more issue: its warnings follow those of the issues before it. */
  lemma WarningsStep(issues: seq<Issue>, cols: seq<string>, i: nat)
    requires i < |issues|
    ensures Warnings(issues[..i + 1], cols) == Warnings(issues[..i], cols) + RowWarnings(issues[i], cols)
  {
    assert issues[..i + 1][..i] == issues[..i];
  }

  /** The loop over the issues: one map per issue, in order. */
  method FlattenIssues(issues: seq<Issue>, cols: seq<string>, dateFormat: string, date: (string, int) -> string)
    returns (rows: seq<map<string, string>>, warnings: seq<Warning>)
    ensures |rows| == |issues|
    ensures forall i :: 0 <= i < |issues| ==> rows[i] == IssueRow(issues[i], cols, dateFormat, date)
    ensures warnings == Warnings(issues, cols)
  {
    rows := [];
    warnings := [];
    var i := 0;
    while i < |issues|
      invariant 0 <= i <= |issues|
      invariant |rows| == i
      invariant forall j :: 0 <= j < i ==> rows[j] == IssueRow(issues[j], cols, dateFormat, date)
      invariant warnings == Warnings(issues[..i], cols)
    {
      var issueData, issueWarnings := FlattenIssue(issues[i], cols, dateFormat, date);
      rows := rows + [issueData];
      warnings := warnings + issueWarnings;
      WarningsStep(issues, cols, i);
      i := i + 1;
    }
    assert issues[..i] == issues;
  }

  /** Setting a key twice keeps the second value. */
  lemma Overwrite(m: map<string, string>, k: string, w: string, v: string)
    ensures m[k := w][k := v] == m[k := v]
  {
  }

  /** One more column: the map and the errors after it. */
  lemma RowStep(issue: Issue, cols: seq<string>, c: nat, dateFormat: string, date: (string, int) -> string)
    requires c < |cols|
    ensures IssueRow(issue, cols[..c + 1], dateFormat, date) ==
      match ColumnEntry(issue, cols[c], dateFormat, date)
      case Some(v) => IssueRow(issue, cols[..c], dateFormat, date)[cols[c] := v]
      case None => IssueRow(issue, cols[..c], dateFormat, date)
    ensures RowWarnings(issue, cols[..c + 1]) == RowWarnings(issue, cols[..c])
      + (if cols[c] != "ID" && LastMatch(issue.fields, cols[c]).None? then [FieldNotFound(cols[c], issue.id)] else [])
  {
    assert cols[..c + 1][..c] == cols[..c];
  }

  /** One pass of the column loop: the fields scan, then the ID override
      and the missing-field warning, give the row up to column `c`. */
  lemma ColumnStep(issue: Issue, cols: seq<string>, c: nat, dateFormat: string, date: (string, int) -> string,
                   fieldFound: bool, scanned: map<string, string>, warnings: seq<Warning>)
    requires c < |cols|
    requires fieldFound == LastMatch(issue.fields, cols[c]).Some?
    requires scanned == match LastMatch(issue.fields, cols[c])
      case None => IssueRow(issue, cols[..c], dateFormat, date)
      case Some(k) => IssueRow(issue, cols[..c], dateFormat, date)[cols[c] := CellValue(issue.fields[k], dateFormat, date)]
    requires warnings == RowWarnings(issue, cols[..c])
    ensures (if cols[c] == "ID" then scanned[cols[c] := issue.id] else scanned)
            == IssueRow(issue, cols[..c + 1], dateFormat, date)
    ensures (if cols[c] != "ID" && !fieldFound then warnings + [FieldNotFound(cols[c], issue.id)] else warnings)
            == RowWarnings(issue, cols[..c + 1])
  {
    RowStep(issue, cols, c, dateFormat, date);
    if cols[c] == "ID" && fieldFound {
      var before := IssueRow(issue, cols[..c], dateFormat, date);
      Overwrite(before, cols[c], scanned[cols[c]], issue.id);
    }
  }

  /** The loop over the columns for one issue. */
  method FlattenIssue(issue: Issue, cols: seq<string>, dateFormat: string, date: (string, int) -> string)
    returns (issueData: map<string, string>, issueWarnings: seq<Warning>)
    ensures issueData == IssueRow(issue, cols, dateFormat, date)
    ensures issueWarnings == RowWarnings(issue, cols)
  {
    issueData := map[];
    issueWarnings := [];
    var c := 0;
    while c < |cols|
      invariant 0 <= c <= |cols|
      invariant issueData == IssueRow(issue, cols[..c], dateFormat, date)
      invariant issueWarnings == RowWarnings(issue, cols[..c])
    {
      var col := cols[c];
      var id := issue.id;
      ghost var before := issueWarnings;
      var fieldFound;
      fieldFound, issueData := ScanFields(issue.fields, col, issueData, dateFormat, date);
      ColumnStep(issue, cols, c, dateFormat, date, fieldFound, issueData, before);
      if col == "ID" {
        issueData := issueData[col := id];
      } else if !fieldFound {
        issueWarnings := issueWarnings + [FieldNotFound(col, id)];
      }
      c := c + 1;
    }
    assert cols[..c] == cols;
  }

  /** The loop over an issue's fields for column `col`: every field of that
      name sets the column's text, so the last one stays. */
  method ScanFields(fields: seq<Field>, col: string, issueData: map<string, string>,
                    dateFormat: string, date: (string, int) -> string)
    returns (fieldFound: bool, updated: map<string, string>)
    ensures fieldFound == LastMatch(fields, col).Some?
    ensures updated == match LastMatch(fields, col)
      case None => issueData
      case Some(k) => issueData[col := CellValue(fields[k], dateFormat, date)]
  {
    fieldFound := false;
    updated := issueData;
    var k := 0;
    while k < |fields|
      invariant 0 <= k <= |fields|
      invariant fieldFound == LastMatch(fields[..k], col).Some?
      invariant updated == Scanned(fields[..k], col, issueData, dateFormat, date)
    {
      var field := fields[k];
      ghost var previous := updated;
      if field.name == col {
        fieldFound := true;
        var value := field.value;
        var fullName := field.fullName;
        if IsTimestamp(value) {
          updated := updated[col := date(dateFormat, Seconds(value))];
        } else if !Empty(fullName) {
          updated := updated[col := fullName];
        } else {
          updated := updated[col := value];
        }
      }
      ScannedStep(fields, k, col, issueData, previous, dateFormat, date);
      k := k + 1;
    }
    assert fields[..k] == fields;
  }

  /** The map after scanning `fields`: the text of the last field named
      `col` in that column, or the map unchanged when there is none. */
  function Scanned(fields: seq<Field>, col: string, issueData: map<string, string>,
                   dateFormat: string, date: (string, int) -> string): map<string, string>
  {
    match LastMatch(fields, col)
    case None => issueData
    case Some(k) => issueData[col := CellValue(fields[k], dateFormat, date)]
  }

  /** Scanning one more field. */
  lemma ScannedStep(fields: seq<Field>, k: nat, col: string, issueData: map<string, string>,
                    previous: map<string, string>, dateFormat: string, date: (string, int) -> string)
    requires k < |fields|
    requires previous == Scanned(fields[..k], col, issueData, dateFormat, date)
    ensures LastMatch(fields[..k + 1], col).Some? == (fields[k].name == col || LastMatch(fields[..k], col).Some?)
    ensures Scanned(fields[..k + 1], col, issueData, dateFormat, date) ==
      if fields[k].name == col then previous[col := CellValue(fields[k], dateFormat, date)] else previous
  {
    assert fields[..k + 1][..k] == fields[..k];
    if fields[k].name == col && LastMatch(fields[..k], col).Some? {
      Overwrite(issueData, col, previous[col], CellValue(fields[k], dateFormat, date));
    }
  }

  // ---------------------------------------------------------------------
  // render

  /** What `render` sends: a paragraph with the "nothing found" text when
      there are no issues, the issue table otherwise. */
  function Rendered(url: string, data: HandleData, nothingFound: string): (r: seq<Event>)
    ensures |r| >= 3
    ensures r[0] == ParagraphOpen <==> data.rows == []
  {
    if data.rows == [] then [ParagraphOpen, Cdata(nothingFound), ParagraphClose]
    else TableEvents(url, data.rows, data.cols)
  }

  /** Either way the output is balanced, and it starts with a paragraph
      exactly when there is nothing to list. */
  lemma RenderedShape(url: string, data: HandleData, nothingFound: string)
    ensures Balanced(Rendered(url, data, nothingFound))
    ensures Rendered(url, data, nothingFound) != []
    ensures Rendered(url, data, nothingFound)[0] == if data.rows == [] then ParagraphOpen else TableOpen(|data.cols|)
  {
    if data.rows != [] {
      TableBalanced(url, data.rows, data.cols);
    } else {
      WrappedLeaf(ParagraphOpen, Cdata(nothingFound), ParagraphClose, Paragraph, []);
    }
  }

  /** `render`, for the data `handle` produced; `nothingFound` is the
      language string for an empty result. */
  method Render(yt: Helper, r: Renderer, data: HandleData, nothingFound: string) returns (ok: bool)
    modifies r, yt`messages
    ensures ok
    ensures r.events == old(r.events) + Rendered(yt.url, data, nothingFound)
    ensures yt.messages == old(yt.messages) + (if data.rows == [] then [] else TableMessages(yt.url, data.rows, data.cols))
  {
    if |data.rows| == 0 {
      ghost var start := r.events;
      r.Emit(ParagraphOpen);
      r.Emit(Cdata(nothingFound));
      r.Emit(ParagraphClose);
      assert r.events == start + [ParagraphOpen, Cdata(nothingFound), ParagraphClose];
      return true;
    }
    yt.RenderIssueTable(r, data.rows, data.cols);
    return true;
  }
}
