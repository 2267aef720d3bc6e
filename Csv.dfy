/** The text `exportCSV` writes: a byte-order mark, the header line with
    the fourteen column titles unquoted, then one line per branch with
    every field quoted and every `"` inside a field doubled. A reader for
    that text is given too and shown to recover every field. */
module Csv {
  import opened Wrappers
  import opened Text
  import opened Records

  /** The byte-order mark the file starts with. */
  const Bom: char := '\U{FEFF}'

  /** The column titles, in export order. */
  const ExportHeaders: seq<string> := [
    "รหัสร้าน", "ชื่อสาขา", "ภาค", "สถานะ", "All Zone", "สถานะเชื่อมOnline", "อำเภอ",
    "จังหวัด", "FC.", "เขต", "ฝ่าย", "GM.", "AVP", "Shophouse/Standalone"
  ]

  /** The field each column takes its value from. */
  const ExportKeys: seq<string> := [
    "storeCode", "branchName", "region", "status", "allZone", "onlineStatus", "district",
    "province", "fc", "zone", "department", "gm", "avp", "shopType"
  ]

  /** `replace(/"/g, '""')`: every double quote doubled. */
  function Escape(s: string): (r: string)
    ensures |r| >= |s|
  {
    if s == [] then [] else (if s[0] == '"' then "\"\"" else [s[0]]) + Escape(s[1..])
  }

  /** One exported field: the escaped value between double quotes. */
  function Quote(s: string): string
  {
    "\"" + Escape(s) + "\""
  }

  function QuoteAll(cells: seq<string>): (r: seq<string>)
    ensures |r| == |cells|
  {
    if cells == [] then [] else [Quote(cells[0])] + QuoteAll(cells[1..])
  }

  /** The values of one branch, in column order; a missing field is empty. */
  function RowCells(b: Branch): (r: seq<string>)
    ensures |r| == |ExportKeys|
    ensures forall i :: 0 <= i < |ExportKeys| ==> r[i] == FieldOr(b.fields, ExportKeys[i])
  {
    seq(|ExportKeys|, i requires 0 <= i < |ExportKeys| => FieldOr(b.fields, ExportKeys[i]))
  }

  /** `row.map(...).join(',') + '\n'`. */
  function QuotedLine(cells: seq<string>): string
  {
    Join(QuoteAll(cells), ",") + "\n"
  }

  /** `headers.join(',') + '\n'`. */
  const HeaderLine: string := Join(ExportHeaders, ",") + "\n"

  /** The data lines, one per branch, in store order. */
  function RowsText(bs: seq<Branch>): string
  {
    if bs == [] then "" else QuotedLine(RowCells(bs[0])) + RowsText(bs[1..])
  }

  /** The exported text for a header line: the mark, the header, the rows. */
  function ExportText(header: string, bs: seq<Branch>): string
  {
    [Bom] + header + RowsText(bs)
  }

  /** The whole exported text, mark included. */
  function CsvContent(bs: seq<Branch>): string
  {
    ExportText(HeaderLine, bs)
  }

  lemma {:induction false} RowsTextAppend(bs: seq<Branch>, b: Branch)
    ensures RowsText(bs + [b]) == RowsText(bs) + QuotedLine(RowCells(b))
  {
    if bs == [] {
      assert RowsText([b]) == QuotedLine(RowCells(b)) + RowsText([]);
    } else {
      assert (bs + [b])[1..] == bs[1..] + [b];
      RowsTextAppend(bs[1..], b);
    }
  }

  lemma RowsTextStep(bs: seq<Branch>, i: nat)
    requires i < |bs|
    ensures RowsText(bs[..i + 1]) == RowsText(bs[..i]) + QuotedLine(RowCells(bs[i]))
  {
    RowsTextAppend(bs[..i], bs[i]);
    assert bs[..i + 1] == bs[..i] + [bs[i]];
  }

  lemma AppendAssoc<T>(a: seq<T>, b: seq<T>, c: seq<T>)
    ensures a + b + c == a + (b + c)
  {
  }

  /** The building of the text in `exportCSV`: the header line, then the
      rows appended one line at a time, then the mark in front. */
  method BuildCsv(bs: seq<Branch>) returns (content: string)
    ensures content == CsvContent(bs)
  {
    content := BuildCsvWith(HeaderLine, bs);
  }

  /** `exportCSV` for a given header line: the rows appended to the header,
      then `'\uFEFF' + csvContent`. */
  method BuildCsvWith(header: string, bs: seq<Branch>) returns (content: string)
    ensures content == ExportText(header, bs)
  {
    var csvContent := AppendRows(header, bs);
    content := [Bom] + csvContent;
  }

  /** The loop of `exportCSV`: one quoted line appended per branch. */
  method AppendRows(header: string, bs: seq<Branch>) returns (csvContent: string)
    ensures csvContent == header + RowsText(bs)
  {
    csvContent := header;
    var i := 0;
    while i < |bs|
      invariant 0 <= i <= |bs|
      invariant csvContent == header + RowsText(bs[..i])
    {
      var line := QuotedLine(RowCells(bs[i]));
      RowsTextStep(bs, i);
      AppendAssoc(header, RowsText(bs[..i]), line);
      csvContent := csvContent + line;
      i := i + 1;
    }
    assert bs[..i] == bs;
  }

  /** Reads the inside of a quoted field up to its closing quote, `""`
      standing for one `"`: the value and the text after the quote. */
  function ReadQuoted(s: string): Option<(string, string)>
    decreases |s|
  {
    if |s| == 0 then None
    else if s[0] == '"' then
      if |s| >= 2 && s[1] == '"' then
        match ReadQuoted(s[2..])
        case None => None
        case Some(r) => Some(("\"" + r.0, r.1))
      else
        Some(("", s[1..]))
    else
      match ReadQuoted(s[1..])
      case None => None
      case Some(r) => Some(([s[0]] + r.0, r.1))
  }

  /** Reading back an escaped value stops at its closing quote. */
  lemma {:induction false} ReadQuotedEscape(v: string, rest: string)
    requires rest == [] || rest[0] != '"'
    ensures ReadQuoted(Escape(v) + "\"" + rest) == Some((v, rest))
  {
    var s := Escape(v) + "\"" + rest;
    if v == [] {
      assert s == "\"" + rest;
      assert s[1..] == rest;
    } else {
      var tail := Escape(v[1..]) + "\"" + rest;
      ReadQuotedEscape(v[1..], rest);
      if v[0] == '"' {
        assert s == "\"\"" + tail;
        assert s[2..] == tail;
        assert [v[0]] + v[1..] == v;
      } else {
        assert s == [v[0]] + tail;
        assert s[1..] == tail;
        assert [v[0]] + v[1..] == v;
      }
    }
  }

  /** Reads `n` quoted fields separated by commas and ended by a newline:
      the values and the text after the newline. */
  function ReadFields(s: string, n: nat): (r: Option<(seq<string>, string)>)
    requires n >= 1
    ensures r.Some? ==> |r.value.0| == n
    decreases n
  {
    if |s| == 0 || s[0] != '"' then None
    else
      match ReadQuoted(s[1..])
      case None => None
      case Some(field) =>
        var rest := field.1;
        if n == 1 then
          if |rest| > 0 && rest[0] == '\n' then Some(([field.0], rest[1..])) else None
        else if |rest| > 0 && rest[0] == ',' then
          match ReadFields(rest[1..], n - 1)
          case None => None
          case Some(more) => Some(([field.0] + more.0, more.1))
        else
          None
  }

  /** Reading a quoted line back gives its cells and leaves what follows. */
  lemma {:induction false} ReadFieldsLine(cells: seq<string>, rest: string)
    requires |cells| >= 1
    ensures ReadFields(QuotedLine(cells) + rest, |cells|) == Some((cells, rest))
  {
    var s := QuotedLine(cells) + rest;
    var q := QuoteAll(cells);
    assert q[1..] == QuoteAll(cells[1..]);
    if |cells| == 1 {
      assert q == [Quote(cells[0])];
      assert s == "\"" + (Escape(cells[0]) + "\"" + ("\n" + rest));
      assert s[1..] == Escape(cells[0]) + "\"" + ("\n" + rest);
      ReadQuotedEscape(cells[0], "\n" + rest);
      assert ("\n" + rest)[1..] == rest;
      assert [cells[0]] == cells;
    } else {
      var tail := QuotedLine(cells[1..]) + rest;
      assert s == "\"" + (Escape(cells[0]) + "\"" + ("," + tail));
      assert s[1..] == Escape(cells[0]) + "\"" + ("," + tail);
      ReadQuotedEscape(cells[0], "," + tail);
      ReadFieldsLine(cells[1..], rest);
      assert ("," + tail)[1..] == tail;
      assert [cells[0]] + cells[1..] == cells;
    }
  }

  /** Reads data lines of `width` fields until the text ends. */
  function ReadRows(s: string, width: nat): Option<seq<seq<string>>>
    requires width >= 1
    decreases |s|
  {
    if s == [] then Some([])
    else
      match ReadFields(s, width)
      case None => None
      case Some(line) =>
        if |line.1| >= |s| then None
        else
          match ReadRows(line.1, width)
          case None => None
          case Some(more) => Some([line.0] + more)
  }

  /** The cells of every branch, in store order. */
  function AllCells(bs: seq<Branch>): (r: seq<seq<string>>)
    ensures |r| == |bs|
    ensures forall i :: 0 <= i < |bs| ==> r[i] == RowCells(bs[i])
  {
    seq(|bs|, i requires 0 <= i < |bs| => RowCells(bs[i]))
  }

  lemma {:induction false} ReadRowsText(bs: seq<Branch>)
    ensures ReadRows(RowsText(bs), |ExportKeys|) == Some(AllCells(bs))
  {
    if bs != [] {
      var line := QuotedLine(RowCells(bs[0]));
      ReadFieldsLine(RowCells(bs[0]), RowsText(bs[1..]));
      ReadRowsText(bs[1..]);
      assert |line| > 0 by {
        assert line[|line| - 1] == '\n';
      }
      assert AllCells(bs) == [RowCells(bs[0])] + AllCells(bs[1..]);
    }
  }

  /** Reads an exported file: the mark, the header line, then the data. */
  function DecodeExport(content: string): Option<seq<seq<string>>>
  {
    var n := |HeaderLine|;
    if |content| > n && content[0] == Bom && content[1..n + 1] == HeaderLine then
      ReadRows(content[n + 1..], |ExportKeys|)
    else
      None
  }

  /** The exported text reads back to exactly the fourteen values of every
      branch, whatever characters (quotes, commas, newlines) they hold. */
  lemma ExportRoundTrip(bs: seq<Branch>)
    ensures DecodeExport(CsvContent(bs)) == Some(AllCells(bs))
  {
    var c := CsvContent(bs);
    var n := |HeaderLine|;
    assert c[1..n + 1] == HeaderLine;
    assert c[n + 1..] == RowsText(bs);
    ReadRowsText(bs);
  }
}
