// The line parser of the asset import, against the quoting rules of section 2 of RFC 4180.
module Csv {
  // ------------------------------------------------------------------ parsing

  /** The cells of the rest of a line, given the cell under way and whether a quote is open. */
  function Scan(s: string, cell: string, quoted: bool): seq<string>
  {
    if s == "" then [cell]
    else if s[0] == '"' && |s| > 1 && s[1] == '"' then Scan(s[2..], cell + "\"", quoted)
    else if s[0] == '"' then Scan(s[1..], cell, !quoted)
    else if s[0] == ',' && !quoted then [cell] + Scan(s[1..], "", quoted)
    else Scan(s[1..], cell + [s[0]], quoted)
  }

  method ParseCsvLine(line: string) returns (cells: seq<string>)
    ensures cells == Scan(line, "", false)
  {
    cells := [];
    var cell, quoted, index := "", false, 0;
    while index < |line|
      invariant 0 <= index <= |line|
      invariant Scan(line, "", false) == cells + Scan(line[index..], cell, quoted)
    {
      var character := line[index];
      ghost var rest := line[index..];
      assert rest[1..] == line[index + 1..];
      if character == '"' && index + 1 < |line| && line[index + 1] == '"' {
        assert rest[1] == '"' && rest[2..] == line[index + 2..];
        cell := cell + "\"";
        index := index + 1;
      } else if character == '"' {
        quoted := !quoted;
      } else if character == ',' && !quoted {
        cells := cells + [cell];
        cell := "";
      } else {
        cell := cell + [character];
      }
      index := index + 1;
    }
    cells := cells + [cell];
  }

  // ------------------------------------------------------------------ writing

  /** Fields that have to be quoted. */
  predicate Special(field: string)
  {
    ',' in field || '"' in field
  }

  /** Quotes inside a quoted field are doubled. */
  function Doubled(field: string): string
  {
    if field == "" then "" else (if field[0] == '"' then "\"\"" else [field[0]]) + Doubled(field[1..])
  }

  datatype Field = Field(text: string, quoted: bool)

  /** A field may be quoted, and must be if it is special. */
  predicate Writable(f: Field)
  {
    Special(f.text) ==> f.quoted
  }

  function Write(f: Field): string
  {
    if f.quoted then "\"" + Doubled(f.text) + "\"" else f.text
  }

  function Line(fs: seq<Field>): string
    requires |fs| > 0
  {
    if |fs| == 1 then Write(fs[0]) else Write(fs[0]) + "," + Line(fs[1..])
  }

  // ------------------------------------------------------------------ what is read back

  predicate OnlyQuotes(text: string)
  {
    forall i :: 0 <= i < |text| ==> text[i] == '"'
  }

  /** A quoted field of quotes only, the empty one included, comes back with one quote too many. */
  function ReadBack(f: Field): string
  {
    if f.quoted && OnlyQuotes(f.text) then f.text + "\"" else f.text
  }

  function AllReadBack(fs: seq<Field>): seq<string>
  {
    if fs == [] then [] else [ReadBack(fs[0])] + AllReadBack(fs[1..])
  }

  /** What follows a field: nothing, or a comma. */
  predicate FieldEnd(rest: string)
  {
    rest == "" || rest[0] == ','
  }

  lemma {:induction false} ReadPlain(text: string, rest: string, cell: string)
    requires !Special(text)
    ensures Scan(text + rest, cell, false) == Scan(rest, cell + text, false)
  {
    if text == "" {
      assert text + rest == rest && cell + text == cell;
    } else {
      assert (text + rest)[1..] == text[1..] + rest;
      assert text[0] in text;
      ReadPlain(text[1..], rest, cell + [text[0]]);
      assert cell + [text[0]] + text[1..] == cell + text;
    }
  }

  /** The rest of a quoted field, up to its closing quote. */
  lemma {:induction false} ReadQuoted(text: string, rest: string, cell: string)
    requires FieldEnd(rest)
    ensures Scan(Doubled(text) + "\"" + rest, cell, true) == Scan(rest, cell + text, false)
  {
    var s := Doubled(text) + "\"" + rest;
    if text == "" {
      assert s[1..] == rest && cell + text == cell;
    } else {
      var more := Doubled(text[1..]) + "\"" + rest;
      assert s == (if text[0] == '"' then "\"\"" else [text[0]]) + more;
      assert s[if text[0] == '"' then 2 else 1..] == more;
      ReadQuoted(text[1..], rest, cell + [text[0]]);
      assert cell + [text[0]] + text[1..] == cell + text;
    }
  }

  lemma QuoteOpens(s: string, rest: string, cell: string)
    requires s == "\"" + rest && (rest == "" || rest[0] != '"')
    ensures Scan(s, cell, false) == Scan(rest, cell, true)
  {
    assert s[1..] == rest;
  }

  lemma QuotePairs(s: string, rest: string, cell: string)
    requires s == "\"\"" + rest
    ensures Scan(s, cell, false) == Scan(rest, cell + "\"", false)
  {
    assert s[2..] == rest;
  }

  lemma ReadBackAfterQuote(text: string)
    requires text != "" && text[0] == '"'
    ensures ReadBack(Field(text, true)) == "\"" + ReadBack(Field(text[1..], true))
  {
    assert text == "\"" + text[1..];
    assert OnlyQuotes(text) <==> OnlyQuotes(text[1..]);
  }

  /** A quoted field from its opening quote on: leading quotes are read before the quote opens. */
  lemma {:induction false} ReadOpening(text: string, rest: string, cell: string)
    requires FieldEnd(rest)
    ensures Scan("\"" + (Doubled(text) + "\"" + rest), cell, false) ==
            Scan(rest, cell + ReadBack(Field(text, true)), false)
  {
    var s := "\"" + (Doubled(text) + "\"" + rest);
    if text == "" {
      assert s == "\"\"" + rest;
      QuotePairs(s, rest, cell);
      assert ReadBack(Field(text, true)) == "\"";
    } else if text[0] == '"' {
      var tail := text[1..];
      var more := "\"" + (Doubled(tail) + "\"" + rest);
      assert s == "\"\"" + more;
      QuotePairs(s, more, cell);
      ReadOpening(tail, rest, cell + "\"");
      ReadBackAfterQuote(text);
      assert cell + "\"" + ReadBack(Field(tail, true)) == cell + ReadBack(Field(text, true));
    } else {
      assert !OnlyQuotes(text);
      assert (Doubled(text) + "\"" + rest)[0] == text[0];
      QuoteOpens(s, Doubled(text) + "\"" + rest, cell);
      ReadQuoted(text, rest, cell);
    }
  }

  lemma ReadQuotedField(text: string, rest: string)
    requires FieldEnd(rest)
    ensures Scan(Write(Field(text, true)) + rest, "", false) == Scan(rest, ReadBack(Field(text, true)), false)
  {
    var body := Doubled(text) + "\"";
    assert Write(Field(text, true)) == "\"" + body;
    assert ("\"" + body) + rest == "\"" + (body + rest);
    ReadOpening(text, rest, "");
    assert "" + ReadBack(Field(text, true)) == ReadBack(Field(text, true));
  }

  lemma ReadField(f: Field, rest: string)
    requires Writable(f) && FieldEnd(rest)
    ensures Scan(Write(f) + rest, "", false) == Scan(rest, ReadBack(f), false)
  {
    if f.quoted {
      assert f == Field(f.text, true);
      ReadQuotedField(f.text, rest);
    } else {
      ReadPlain(f.text, rest, "");
      assert "" + f.text == f.text;
    }
  }

  /** Reading back any written line, whichever fields were quoted beyond need. */
  lemma {:induction false} ReadLine(fs: seq<Field>)
    requires |fs| > 0 && forall i :: 0 <= i < |fs| ==> Writable(fs[i])
    ensures Scan(Line(fs), "", false) == AllReadBack(fs)
  {
    if |fs| == 1 {
      ReadField(fs[0], "");
      assert Write(fs[0]) + "" == Write(fs[0]);
      assert AllReadBack(fs[1..]) == [];
    } else {
      var rest := "," + Line(fs[1..]);
      ReadField(fs[0], rest);
      assert Write(fs[0]) + "," + Line(fs[1..]) == Write(fs[0]) + rest;
      assert rest[1..] == Line(fs[1..]);
      ReadLine(fs[1..]);
    }
  }

  function Texts(fs: seq<Field>): seq<string>
  {
    if fs == [] then [] else [fs[0].text] + Texts(fs[1..])
  }

  lemma {:induction false} ReadBackExact(fs: seq<Field>)
    ensures |AllReadBack(fs)| == |Texts(fs)| == |fs|
    ensures forall i :: 0 <= i < |fs| ==> AllReadBack(fs)[i] == ReadBack(fs[i]) && Texts(fs)[i] == fs[i].text
  {
    if fs != [] { ReadBackExact(fs[1..]); }
  }

  /** Parsing undoes quoting if and only if no quoted field consists of quotes only. */
  lemma RoundTripIff(fs: seq<Field>)
    requires |fs| > 0 && forall i :: 0 <= i < |fs| ==> Writable(fs[i])
    ensures Scan(Line(fs), "", false) == Texts(fs) <==>
            forall i :: 0 <= i < |fs| ==> !(fs[i].quoted && OnlyQuotes(fs[i].text))
  {
    ReadLine(fs);
    ReadBackExact(fs);
    var read, texts := AllReadBack(fs), Texts(fs);
    if forall i :: 0 <= i < |fs| ==> !(fs[i].quoted && OnlyQuotes(fs[i].text)) {
      assert read == texts;
    } else {
      var i :| 0 <= i < |fs| && fs[i].quoted && OnlyQuotes(fs[i].text);
      assert |read[i]| == |texts[i]| + 1;
    }
  }

  /** Quoting only where it is needed. */
  function Minimal(texts: seq<string>): seq<Field>
  {
    if texts == [] then [] else [Field(texts[0], Special(texts[0]))] + Minimal(texts[1..])
  }

  lemma {:induction false} MinimalExact(texts: seq<string>)
    ensures |Minimal(texts)| == |texts| && Texts(Minimal(texts)) == texts
    ensures forall i :: 0 <= i < |texts| ==> Minimal(texts)[i] == Field(texts[i], Special(texts[i]))
  {
    if texts != [] { MinimalExact(texts[1..]); }
  }

  /** With minimal quoting the round trip holds exactly when no non-empty field is all quotes. */
  lemma MinimalRoundTripIff(texts: seq<string>)
    requires |texts| > 0
    ensures |Minimal(texts)| > 0
    ensures Scan(Line(Minimal(texts)), "", false) == texts <==>
            forall i :: 0 <= i < |texts| ==> texts[i] != "" ==> !OnlyQuotes(texts[i])
  {
    MinimalExact(texts);
    RoundTripIff(Minimal(texts));
    forall i | 0 <= i < |texts|
      ensures Special(texts[i]) && OnlyQuotes(texts[i]) <==> texts[i] != "" && OnlyQuotes(texts[i])
    {
      if texts[i] != "" && OnlyQuotes(texts[i]) { assert texts[i][0] in texts[i]; }
    }
  }

  // ------------------------------------------------------------------ import

  /** White space as `trim` of ECMA-262 removes it. */
  predicate Space(c: char)
  {
    || '\t' <= c <= '\r' || c == ' ' || c == '\U{00A0}' || c == '\U{1680}' || '\U{2000}' <= c <= '\U{200A}'
    || c == '\U{2028}' || c == '\U{2029}' || c == '\U{202F}' || c == '\U{205F}' || c == '\U{3000}' || c == '\U{FEFF}'
  }

  function Trim(s: string): string
  {
    if s != "" && Space(s[0]) then Trim(s[1..])
    else if s != "" && Space(s[|s| - 1]) then Trim(s[..|s| - 1])
    else s
  }

  /** What is left has no white space at its ends, and all that is gone is white space around it. */
  lemma {:induction false} TrimExact(s: string) returns (i: nat, j: nat)
    ensures i <= j <= |s| && Trim(s) == s[i..j]
    ensures forall k :: 0 <= k < |s| && !(i <= k < j) ==> Space(s[k])
    ensures i < j ==> !Space(s[i]) && !Space(s[j - 1])
  {
    i, j := 0, |s|;
    if s != "" && Space(s[0]) {
      var rest := s[1..];
      i, j := TrimExact(rest);
      assert rest[i..j] == s[i + 1..j + 1];
      assert forall k :: 0 < k < |s| ==> s[k] == rest[k - 1];
      i, j := i + 1, j + 1;
    } else if s != "" && Space(s[|s| - 1]) {
      var rest := s[..|s| - 1];
      i, j := TrimExact(rest);
      assert rest[i..j] == s[i..j];
      assert forall k :: 0 <= k < |rest| ==> s[k] == rest[k];
    }
  }

  function TrimAll(cells: seq<string>): (r: seq<string>)
    ensures |r| == |cells|
    ensures forall i :: 0 <= i < |cells| ==> r[i] == Trim(cells[i])
  {
    seq(|cells|, i requires 0 <= i < |cells| => Trim(cells[i]))
  }

  /** A data row as fields by header: a later column of the same name wins, missing cells are empty. */
  function Record(headers: seq<string>, cells: seq<string>): map<string, string>
  {
    if headers == [] then map[]
    else
      var last := |headers| - 1;
      Record(headers[..last], cells)[headers[last] := if last < |cells| then cells[last] else ""]
  }

  /** The record of a data line under a header line. */
  function RecordOf(header: string, line: string): map<string, string>
  {
    Record(TrimAll(Scan(header, "", false)), TrimAll(Scan(line, "", false)))
  }

  method RowRecord(headers: seq<string>, values: seq<string>) returns (raw: map<string, string>)
    ensures raw == Record(headers, TrimAll(values))
  {
    raw := map[];
    var column := 0;
    while column < |headers|
      invariant 0 <= column <= |headers|
      invariant raw == Record(headers[..column], TrimAll(values))
    {
      assert headers[..column + 1][..column] == headers[..column];
      raw := raw[headers[column] := if column < |values| then Trim(values[column]) else ""];
      column := column + 1;
    }
    assert headers[..column] == headers;
  }

  method ImportRecords(lines: seq<string>) returns (records: seq<map<string, string>>)
    requires |lines| > 0
    ensures |records| == |lines| - 1
    ensures forall k :: 1 <= k < |lines| ==> records[k - 1] == RecordOf(lines[0], lines[k])
  {
    var cells := ParseCsvLine(lines[0]);
    var headers := TrimAll(cells);
    records := [];
    var index := 1;
    while index < |lines|
      invariant 1 <= index <= |lines| && |records| == index - 1
      invariant forall k :: 1 <= k < index ==> records[k - 1] == RecordOf(lines[0], lines[k])
    {
      var values := ParseCsvLine(lines[index]);
      var raw := RowRecord(headers, values);
      assert raw == RecordOf(lines[0], lines[index]);
      records := records + [raw];
      index := index + 1;
    }
  }

  /** A record has the headers as its fields, and no other. */
  lemma {:induction false} RecordFields(headers: seq<string>, cells: seq<string>, name: string)
    ensures name in Record(headers, cells) <==> name in headers
  {
    if headers != [] {
      var last := |headers| - 1;
      RecordFields(headers[..last], cells, name);
      assert headers == headers[..last] + [headers[last]];
    }
  }

  lemma {:induction false} RecordAt(headers: seq<string>, cells: seq<string>, j: nat)
    requires j < |headers| && forall k :: j < k < |headers| ==> headers[k] != headers[j]
    ensures headers[j] in Record(headers, cells)
    ensures Record(headers, cells)[headers[j]] == if j < |cells| then cells[j] else ""
    decreases |headers|
  {
    var last := |headers| - 1;
    if j < last {
      RecordAt(headers[..last], cells, j);
    }
  }

  lemma RecordOnlyNames(header: seq<Field>, cells: seq<string>)
    ensures forall name :: name in Record(TrimAll(AllReadBack(header)), cells) ==>
              exists k :: 0 <= k < |header| && name == Trim(ReadBack(header[k]))
  {
    var names := TrimAll(AllReadBack(header));
    ReadBackExact(header);
    forall name | name in Record(names, cells)
      ensures exists k :: 0 <= k < |header| && name == Trim(ReadBack(header[k]))
    {
      RecordFields(names, cells, name);
      var k :| 0 <= k < |names| && names[k] == name;
      assert name == Trim(ReadBack(header[k]));
    }
  }

  /** A table written with any legal quoting imports its own cells: in every row, each header has the
      trimmed text of its cell, unless that is a quoted field of quotes only, and there is no other field. */
  lemma TableImports(header: seq<Field>, row: seq<Field>, j: nat)
    requires |header| > 0 && forall i :: 0 <= i < |header| ==> Writable(header[i])
    requires |row| > 0 && forall i :: 0 <= i < |row| ==> Writable(row[i])
    requires j < |header| && j < |row|
    requires !(header[j].quoted && OnlyQuotes(header[j].text)) && !(row[j].quoted && OnlyQuotes(row[j].text))
    requires forall k :: j < k < |header| ==> Trim(ReadBack(header[k])) != Trim(header[j].text)
    ensures var record := RecordOf(Line(header), Line(row));
            && Trim(header[j].text) in record && record[Trim(header[j].text)] == Trim(row[j].text)
            && forall name :: name in record ==> exists k :: 0 <= k < |header| && name == Trim(ReadBack(header[k]))
  {
    ReadLine(header);
    ReadLine(row);
    ReadBackExact(header);
    ReadBackExact(row);
    var names, cells := TrimAll(AllReadBack(header)), TrimAll(AllReadBack(row));
    RecordAt(names, cells, j);
    RecordOnlyNames(header, cells);
  }
}
