/** The creator's CSV download: one header line, then one line per response,
    every cell of the survey's columns quoted with its quotes doubled, the
    whole preceded by a byte-order mark. A reader of the format is defined
    beside it, and reading the export back gives the header and one record
    per response. */
module CsvExport {
  import opened Strings
  import opened SurveyTypes

  /** `s.replace(/"/g, '""')` */
  function EscapeQuotes(s: string): string {
    if s == [] then [] else (if s[0] == '"' then "\"\"" else [s[0]]) + EscapeQuotes(s[1..])
  }

  /** A text without double quotes is copied as it is. */
  lemma {:induction false} EscapeQuotesPlain(s: string)
    requires '"' !in s
    ensures EscapeQuotes(s) == s
  {
    if s != [] {
      assert '"' !in s[1..] by {
        forall i | 0 <= i < |s[1..]| ensures s[1..][i] != '"' {
          assert s[1..][i] == s[i + 1];
        }
      }
      EscapeQuotesPlain(s[1..]);
      assert [s[0]] + s[1..] == s;
    }
  }

  /** `"${s.replace(/"/g, '""')}"` */
  function Quote(s: string): (r: string)
    ensures |r| >= 2 && r[0] == '"' && r[|r| - 1] == '"'
  {
    "\"" + EscapeQuotes(s) + "\""
  }

  /** What `getResponseValue` returns: a string, or a number (the 1-based
      position of a likert answer among the options). */
  datatype CellValue = Text(s: string) | Position(n: nat)

  /** `getResponseValue`: a missing answer is empty, an array is joined with
      ", ", a likert answer found among the options becomes its 1-based
      position, and any other string is itself. */
  function ResponseValue(q: Question, v: Option<Answer>): (r: CellValue)
    ensures v.None? ==> r == Text("")
    ensures v.Some? && v.value.Multiple? ==> r == Text(Join(v.value.items, ", "))
    ensures r.Position? <==>
      v.Some? && v.value.Single? && q.qtype == Likert5 && q.options.Some? && v.value.s in q.options.value
    ensures r.Position? ==>
      && 1 <= r.n <= |q.options.value|
      && q.options.value[r.n - 1] == v.value.s
      && v.value.s !in q.options.value[..r.n - 1]
    ensures v.Some? && v.value.Single? && !r.Position? ==> r == Text(v.value.s)
  {
    match v
    case None => Text("")
    case Some(Multiple(items)) => Text(Join(items, ", "))
    case Some(Single(s)) =>
      if q.qtype == Likert5 && q.options.Some? then
        var index := IndexOf(q.options.value, s);
        if index != -1 then Position(index + 1) else Text(s)
      else Text(s)
  }

  /** `String(value)` */
  function CellText(c: CellValue): string {
    match c
    case Text(s) => s
    case Position(n) => NatToDecimal(n)
  }

  /** The header array: `Response ID`, unquoted, then each question's text. */
  function HeaderCells(qs: seq<Question>): (cells: seq<string>)
    ensures |cells| == |qs| + 1
    ensures cells[0] == "Response ID"
    ensures forall i :: 0 < i <= |qs| ==> cells[i] == Quote(qs[i - 1].text)
  {
    var cell := (q: Question) => Quote(q.text);
    MapSeqCons("Response ID", qs, cell);
    ["Response ID"] + MapSeq(qs, cell)
  }

  /** The text of question `q`'s answer in the response `res`. */
  function AnswerText(q: Question, res: Response): string {
    CellText(ResponseValue(q, AnswerAt(res.answers, QuestionKey(q.id))))
  }

  /** The cell of question `q` in the row of `res`. */
  function AnswerCell(q: Question, res: Response): string {
    Quote(AnswerText(q, res))
  }

  /** A response's row array: its quoted id, then one cell per question. */
  function RowCells(qs: seq<Question>, res: Response): (cells: seq<string>)
    ensures |cells| == |qs| + 1
    ensures cells[0] == Quote(NatToDecimal(res.id))
    ensures forall i :: 0 < i <= |qs| ==> cells[i] == AnswerCell(qs[i - 1], res)
  {
    var cell := (q: Question) => AnswerCell(q, res);
    MapSeqCons(Quote(NatToDecimal(res.id)), qs, cell);
    [Quote(NatToDecimal(res.id))] + MapSeq(qs, cell)
  }

  function Rows(qs: seq<Question>, rs: seq<Response>): (lines: seq<string>)
    ensures |lines| == |rs|
    ensures forall k :: 0 <= k < |rs| ==> lines[k] == Join(RowCells(qs, rs[k]), ",")
  {
    MapSeq(rs, res => Join(RowCells(qs, res), ","))
  }

  const ByteOrderMark: char := '\U{FEFF}'

  /** The downloaded text, or None when there is no survey or no response
      (the download does nothing then). */
  function CsvContent(data: StoredData): (r: Option<string>)
    ensures r.Some? <==> data.survey.Some? && data.responses != []
    ensures r.Some? ==> |r.value| >= 1 && r.value[0] == ByteOrderMark
  {
    if data.survey.None? || data.responses == [] then None
    else
      var qs := data.survey.value.questions;
      Some([ByteOrderMark] + Join(HeaderCells(qs), ",") + "\n" + Join(Rows(qs, data.responses), "\n"))
  }

  // ---------------------------------------------------------------------------
  // Reading the format back (quoted fields with doubled quotes, fields
  // separated by commas, records by line feeds)

  /** The rest of a quoted field after its opening quote: the value and what
      follows the closing quote. */
  function ParseQuoted(s: string): (r: (string, string))
    ensures |r.1| <= |s|
  {
    if s == [] then ([], [])
    else if s[0] == '"' then
      if |s| > 1 && s[1] == '"' then var (v, rest) := ParseQuoted(s[2..]); (['"'] + v, rest)
      else ([], s[1..])
    else var (v, rest) := ParseQuoted(s[1..]); ([s[0]] + v, rest)
  }

  /** An unquoted field: everything up to the next comma or line feed. */
  function ParseBare(s: string): (r: (string, string))
    ensures |r.1| <= |s|
  {
    if s == [] || s[0] == ',' || s[0] == '\n' then ([], s)
    else var (v, rest) := ParseBare(s[1..]); ([s[0]] + v, rest)
  }

  function ParseField(s: string): (r: (string, string))
    ensures |r.1| <= |s|
  {
    if s != [] && s[0] == '"' then ParseQuoted(s[1..]) else ParseBare(s)
  }

  /** The fields of one record and what follows it. */
  function ParseRecord(s: string): (r: (seq<string>, string))
    ensures |r.0| >= 1
    ensures |r.1| <= |s|
    decreases |s|
  {
    var (v, rest) := ParseField(s);
    if rest != [] && rest[0] == ',' then
      var (vs, rest') := ParseRecord(rest[1..]);
      ([v] + vs, rest')
    else ([v], rest)
  }

  function ParseRecords(s: string): (r: seq<seq<string>>)
    ensures |r| >= 1
    decreases |s|
  {
    var (fields, rest) := ParseRecord(s);
    if rest != [] && rest[0] == '\n' then [fields] + ParseRecords(rest[1..]) else [fields]
  }

  /** A document, with its byte-order mark skipped. */
  function ParseCsv(s: string): seq<seq<string>> {
    if s != [] && s[0] == ByteOrderMark then ParseRecords(s[1..]) else ParseRecords(s)
  }

  /** What may follow a field: nothing, a comma or a line feed. */
  predicate FieldEnd(u: string) {
    u == [] || u[0] == ',' || u[0] == '\n'
  }

  /** What may follow a record: nothing or a line feed. */
  predicate RecordEnd(u: string) {
    u == [] || u[0] == '\n'
  }

  lemma {:induction false} ParseQuotedEscaped(v: string, t: string)
    requires t == [] || t[0] != '"'
    ensures ParseQuoted(EscapeQuotes(v) + "\"" + t) == (v, t)
  {
    var s := EscapeQuotes(v) + "\"" + t;
    if v == [] {
      assert s == "\"" + t;
    } else {
      ParseQuotedEscaped(v[1..], t);
      var tail := EscapeQuotes(v[1..]) + "\"" + t;
      if v[0] == '"' {
        assert s == "\"\"" + tail;
        assert s[2..] == tail;
        assert ['"'] + v[1..] == v;
      } else {
        assert s == [v[0]] + tail;
        assert s[1..] == tail;
        assert [v[0]] + v[1..] == v;
      }
    }
  }

  /** A quoted cell reads back as the text it quotes. */
  lemma QuoteReadsBack(v: string, u: string)
    requires FieldEnd(u)
    ensures ParseField(Quote(v) + u) == (v, u)
  {
    var s := Quote(v) + u;
    assert s == "\"" + (EscapeQuotes(v) + "\"" + u);
    assert s[1..] == EscapeQuotes(v) + "\"" + u;
    ParseQuotedEscaped(v, u);
  }

  lemma {:induction false} BareReadsBack(b: string, u: string)
    requires forall i :: 0 <= i < |b| ==> b[i] != ',' && b[i] != '\n'
    requires FieldEnd(u)
    ensures ParseBare(b + u) == (b, u)
  {
    if b == [] {
      assert b + u == u;
    } else {
      assert (b + u)[1..] == b[1..] + u;
      BareReadsBack(b[1..], u);
      assert [b[0]] + b[1..] == b;
    }
  }

  /** The text `e` reads back as the field `v`, whatever may follow it. */
  ghost predicate FieldReadsAs(e: string, v: string) {
    forall u | FieldEnd(u) :: ParseField(e + u) == (v, u)
  }

  /** The text `line` reads back as the record `rec`, whatever may follow it. */
  ghost predicate RecordReadsAs(line: string, rec: seq<string>) {
    forall t | RecordEnd(t) :: ParseRecord(line + t) == (rec, t)
  }

  /** Fields that read back, joined with commas, read back as one record. */
  lemma {:induction false} RecordReadsBack(encs: seq<string>, vals: seq<string>)
    requires |encs| == |vals| > 0
    requires forall i | 0 <= i < |encs| :: FieldReadsAs(encs[i], vals[i])
    ensures RecordReadsAs(Join(encs, ","), vals)
  {
    forall t | RecordEnd(t) ensures ParseRecord(Join(encs, ",") + t) == (vals, t) {
      assert FieldReadsAs(encs[0], vals[0]);
      if |encs| == 1 {
        assert FieldEnd(t);
        assert ParseField(encs[0] + t) == (vals[0], t);
        assert Join(encs, ",") == encs[0];
        assert vals == [vals[0]];
      } else {
        var tail := Join(encs[1..], ",") + t;
        var u := "," + tail;
        assert Join(encs, ",") + t == encs[0] + u;
        assert FieldEnd(u);
        assert ParseField(encs[0] + u) == (vals[0], u);
        assert u[1..] == tail;
        assert forall i | 0 <= i < |encs[1..]| :: FieldReadsAs(encs[1..][i], vals[1..][i]) by {
          forall i | 0 <= i < |encs[1..]| ensures FieldReadsAs(encs[1..][i], vals[1..][i]) {
            assert encs[1..][i] == encs[i + 1] && vals[1..][i] == vals[i + 1];
          }
        }
        RecordReadsBack(encs[1..], vals[1..]);
        assert ParseRecord(tail) == (vals[1..], t);
        assert [vals[0]] + vals[1..] == vals;
      }
    }
  }

  /** A record that reads back, followed by a line feed, is read before the
      records after that line feed. */
  lemma RecordThenRecords(line: string, rec: seq<string>, tail: string)
    requires RecordReadsAs(line, rec)
    ensures ParseRecords(line + "\n" + tail) == [rec] + ParseRecords(tail)
  {
    var t := "\n" + tail;
    assert line + "\n" + tail == line + t;
    assert RecordEnd(t);
    assert ParseRecord(line + t) == (rec, t);
    assert t[1..] == tail;
  }

  lemma ShiftReadsAs(lines: seq<string>, recs: seq<seq<string>>)
    requires |lines| == |recs| > 0
    requires forall i | 0 <= i < |lines| :: RecordReadsAs(lines[i], recs[i])
    ensures forall i | 0 <= i < |lines| - 1 :: RecordReadsAs(lines[1..][i], recs[1..][i])
  {
    forall i | 0 <= i < |lines| - 1 ensures RecordReadsAs(lines[1..][i], recs[1..][i]) {
      assert lines[1..][i] == lines[i + 1] && recs[1..][i] == recs[i + 1];
    }
  }

  /** Records that read back, joined with line feeds, read back as a list of
      records. */
  lemma {:induction false} RecordsReadBack(lines: seq<string>, recs: seq<seq<string>>)
    requires |lines| == |recs| > 0
    requires forall i | 0 <= i < |lines| :: RecordReadsAs(lines[i], recs[i])
    ensures ParseRecords(Join(lines, "\n")) == recs
  {
    assert RecordReadsAs(lines[0], recs[0]);
    if |lines| == 1 {
      assert RecordEnd([]);
      assert lines[0] + [] == lines[0];
      assert ParseRecord(lines[0] + []) == (recs[0], []);
    } else {
      var tail := Join(lines[1..], "\n");
      assert Join(lines, "\n") == lines[0] + "\n" + tail;
      RecordThenRecords(lines[0], recs[0], tail);
      ShiftReadsAs(lines, recs);
      RecordsReadBack(lines[1..], recs[1..]);
      assert [recs[0]] + recs[1..] == recs;
    }
  }

  /** The header as read back: `Response ID` and each question's text. */
  function HeaderValues(qs: seq<Question>): (vals: seq<string>)
    ensures |vals| == |qs| + 1
    ensures vals[0] == "Response ID"
    ensures forall i :: 0 < i <= |qs| ==> vals[i] == qs[i - 1].text
  {
    var text := (q: Question) => q.text;
    MapSeqCons("Response ID", qs, text);
    ["Response ID"] + MapSeq(qs, text)
  }

  /** A row as read back: the response id in decimal, then each question's
      `getResponseValue` as text. */
  function RowValues(qs: seq<Question>, res: Response): (vals: seq<string>)
    ensures |vals| == |qs| + 1
    ensures vals[0] == NatToDecimal(res.id)
    ensures forall i :: 0 < i <= |qs| ==> vals[i] == AnswerText(qs[i - 1], res)
  {
    var text := (q: Question) => AnswerText(q, res);
    MapSeqCons(NatToDecimal(res.id), qs, text);
    [NatToDecimal(res.id)] + MapSeq(qs, text)
  }

  lemma HeaderReadsBack(qs: seq<Question>)
    ensures RecordReadsAs(Join(HeaderCells(qs), ","), HeaderValues(qs))
  {
    var encs, vals := HeaderCells(qs), HeaderValues(qs);
    forall i | 0 <= i < |encs| ensures FieldReadsAs(encs[i], vals[i]) {
      forall u | FieldEnd(u) ensures ParseField(encs[i] + u) == (vals[i], u) {
        if i == 0 {
          BareReadsBack("Response ID", u);
          assert ("Response ID" + u)[0] == 'R';
        } else {
          QuoteReadsBack(qs[i - 1].text, u);
        }
      }
    }
    RecordReadsBack(encs, vals);
  }

  lemma AnswerCellReadsBack(q: Question, res: Response)
    ensures FieldReadsAs(AnswerCell(q, res), AnswerText(q, res))
  {
    forall u | FieldEnd(u) ensures ParseField(AnswerCell(q, res) + u) == (AnswerText(q, res), u) {
      QuoteReadsBack(AnswerText(q, res), u);
    }
  }

  lemma IdCellReadsBack(res: Response)
    ensures FieldReadsAs(Quote(NatToDecimal(res.id)), NatToDecimal(res.id))
  {
    forall u | FieldEnd(u) ensures ParseField(Quote(NatToDecimal(res.id)) + u) == (NatToDecimal(res.id), u) {
      QuoteReadsBack(NatToDecimal(res.id), u);
    }
  }

  lemma RowReadsBack(qs: seq<Question>, res: Response)
    ensures RecordReadsAs(Join(RowCells(qs, res), ","), RowValues(qs, res))
  {
    var encs, vals := RowCells(qs, res), RowValues(qs, res);
    forall i | 0 <= i < |encs| ensures FieldReadsAs(encs[i], vals[i]) {
      if i == 0 {
        IdCellReadsBack(res);
      } else {
        AnswerCellReadsBack(qs[i - 1], res);
      }
    }
    RecordReadsBack(encs, vals);
  }

  /** The lines of the export: the header, then one row per response. */
  function Lines(qs: seq<Question>, rs: seq<Response>): (lines: seq<string>)
    ensures |lines| == |rs| + 1
    ensures lines[0] == Join(HeaderCells(qs), ",")
    ensures forall k :: 0 < k <= |rs| ==> lines[k] == Join(RowCells(qs, rs[k - 1]), ",")
  {
    ConsAt(Join(HeaderCells(qs), ","), Rows(qs, rs));
    [Join(HeaderCells(qs), ",")] + Rows(qs, rs)
  }

  /** The records the export should read back as. */
  function Records(qs: seq<Question>, rs: seq<Response>): (recs: seq<seq<string>>)
    ensures |recs| == |rs| + 1
    ensures recs[0] == HeaderValues(qs)
    ensures forall k :: 0 < k <= |rs| ==> recs[k] == RowValues(qs, rs[k - 1])
  {
    var row := (res: Response) => RowValues(qs, res);
    MapSeqCons(HeaderValues(qs), rs, row);
    [HeaderValues(qs)] + MapSeq(rs, row)
  }

  /** After the byte-order mark, the export is its lines joined by line feeds. */
  lemma CsvContentLines(data: StoredData)
    requires CsvContent(data).Some?
    ensures CsvContent(data).value[1..] == Join(Lines(data.survey.value.questions, data.responses), "\n")
  {
    var qs, rs := data.survey.value.questions, data.responses;
    var lines := Lines(qs, rs);
    assert lines[1..] == Rows(qs, rs);
  }

  lemma LinesReadBack(qs: seq<Question>, rs: seq<Response>)
    ensures forall i | 0 <= i < |rs| + 1 :: RecordReadsAs(Lines(qs, rs)[i], Records(qs, rs)[i])
  {
    var lines, recs := Lines(qs, rs), Records(qs, rs);
    forall i | 0 <= i < |rs| + 1 ensures RecordReadsAs(lines[i], recs[i]) {
      if i == 0 {
        HeaderReadsBack(qs);
      } else {
        RowReadsBack(qs, rs[i - 1]);
      }
    }
  }

  /** Reading the export back gives the header record and then, in response
      order, one record per response, whatever the answers contain (commas,
      quotes and line breaks included). */
  lemma CsvReadsBack(data: StoredData)
    requires CsvContent(data).Some?
    ensures ParseCsv(CsvContent(data).value) == Records(data.survey.value.questions, data.responses)
  {
    var qs, rs := data.survey.value.questions, data.responses;
    CsvContentLines(data);
    LinesReadBack(qs, rs);
    RecordsReadBack(Lines(qs, rs), Records(qs, rs));
  }

  /** The shape of the export: one header record and one record per
      response, each with a column for the id and one per question. */
  lemma CsvShape(data: StoredData)
    requires CsvContent(data).Some?
    ensures var recs := ParseCsv(CsvContent(data).value);
      && |recs| == |data.responses| + 1
      && recs[0][0] == "Response ID"
      && forall r | r in recs :: |r| == |data.survey.value.questions| + 1
  {
    CsvReadsBack(data);
  }
}
