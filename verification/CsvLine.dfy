/** The bulk-import dialog's parser for one CSV line, and the printer of section 2 of RFC 4180. */
module CsvLine {

  /** The characters String.prototype.trim removes. */
  predicate IsSpace(c: char)
  {
    || c in {'\t', '\n', '\U{B}', '\U{C}', '\r', ' ', '\U{A0}', '\U{1680}', '\U{2028}', '\U{2029}', '\U{202F}', '\U{205F}', '\U{3000}', '\U{FEFF}'}
    || '\U{2000}' <= c <= '\U{200A}'
  }

  function Trim(s: string): string
  {
    if s == "" then ""
    else if IsSpace(s[0]) then Trim(s[1..])
    else if IsSpace(s[|s| - 1]) then Trim(s[..|s| - 1])
    else s
  }

  predicate IsTrimmed(s: string)
  {
    s == "" || (!IsSpace(s[0]) && !IsSpace(s[|s| - 1]))
  }

  lemma {:induction false} TrimIsShorter(s: string)
    ensures |Trim(s)| <= |s| && (Trim(s) == s <==> IsTrimmed(s))
  {
    if s != "" {
      if IsSpace(s[0]) { TrimIsShorter(s[1..]); }
      else if IsSpace(s[|s| - 1]) { TrimIsShorter(s[..|s| - 1]); }
    }
  }

  /** String.prototype.trim: what is left stands between white space and has none at its ends. */
  lemma {:induction false} TrimMeaning(s: string) returns (before: string, after: string)
    ensures s == before + Trim(s) + after && IsTrimmed(Trim(s))
    ensures AllSpace(before) && AllSpace(after)
  {
    before, after := "", "";
    if s != "" {
      if IsSpace(s[0]) {
        var inner;
        inner, after := TrimMeaning(s[1..]);
        before := [s[0]] + inner;
        SplitFirst(s, inner, Trim(s[1..]), after);
      } else if IsSpace(s[|s| - 1]) {
        var inner;
        before, inner := TrimMeaning(s[..|s| - 1]);
        after := inner + [s[|s| - 1]];
        SplitLast(s, before, Trim(s[..|s| - 1]), inner);
      }
    }
  }

  predicate AllSpace(s: string)
  {
    forall i :: 0 <= i < |s| ==> IsSpace(s[i])
  }

  lemma SplitFirst(s: string, a: string, b: string, c: string)
    requires s != "" && s[1..] == a + b + c && AllSpace(a) && IsSpace(s[0])
    ensures s == ([s[0]] + a) + b + c && AllSpace([s[0]] + a)
  {
    assert s == [s[0]] + s[1..];
    assert [s[0]] + (a + b + c) == ([s[0]] + a) + b + c;
  }

  lemma SplitLast(s: string, a: string, b: string, c: string)
    requires s != "" && s[..|s| - 1] == a + b + c && AllSpace(c) && IsSpace(s[|s| - 1])
    ensures s == a + b + (c + [s[|s| - 1]]) && AllSpace(c + [s[|s| - 1]])
  {
    assert s == s[..|s| - 1] + [s[|s| - 1]];
    assert (a + b + c) + [s[|s| - 1]] == a + b + (c + [s[|s| - 1]]);
  }

  /** The fields still to come when `rest` of the line is unread. */
  function Parse(rest: string, cur: string, inQuotes: bool): (fields: seq<string>)
    ensures fields != []
  {
    if rest == "" then [Trim(cur)]
    else if rest[0] == '"' then
      if inQuotes && |rest| > 1 && rest[1] == '"' then Parse(rest[2..], cur + "\"", inQuotes)
      else Parse(rest[1..], cur, !inQuotes)
    else if rest[0] == ',' && !inQuotes then [Trim(cur)] + Parse(rest[1..], "", false)
    else Parse(rest[1..], cur + [rest[0]], inQuotes)
  }

  /** parseLine. */
  method ParseLine(line: string) returns (fields: seq<string>)
    ensures fields == Parse(line, "", false)
  {
    fields := [];
    var cur := "";
    var inQuotes := false;
    var i := 0;
    while i < |line|
      invariant 0 <= i <= |line|
      invariant fields + Parse(line[i..], cur, inQuotes) == Parse(line, "", false)
    {
      var ch := line[i];
      if ch == '"' {
        if inQuotes && i + 1 < |line| && line[i + 1] == '"' {
          assert line[i..][2..] == line[i + 2..];
          cur := cur + "\"";
          i := i + 1;
        } else {
          assert line[i..][1..] == line[i + 1..];
          inQuotes := !inQuotes;
        }
      } else if ch == ',' && !inQuotes {
        assert line[i..][1..] == line[i + 1..];
        fields := fields + [Trim(cur)];
        cur := "";
      } else {
        assert line[i..][1..] == line[i + 1..];
        cur := cur + [ch];
      }
      i := i + 1;
    }
    fields := fields + [Trim(cur)];
  }

  // ---------------------------------------------------------------------------
  // Printing
  // ---------------------------------------------------------------------------

  /** A field and whether it is printed in quotes. */
  datatype Cell = Cell(text: string, quoted: bool)

  /** Fields with quotes or commas must be quoted. */
  predicate Printable(c: Cell)
  {
    c.quoted || ('"' !in c.text && ',' !in c.text)
  }

  function Doubled(s: string): string
  {
    if s == "" then "" else (if s[0] == '"' then "\"\"" else [s[0]]) + Doubled(s[1..])
  }

  function PrintCell(c: Cell): string
  {
    if c.quoted then "\"" + Doubled(c.text) + "\"" else c.text
  }

  function Print(cells: seq<Cell>): string
    requires cells != []
  {
    if |cells| == 1 then PrintCell(cells[0]) else PrintCell(cells[0]) + "," + Print(cells[1..])
  }

  /** Unquoted text is read as it stands. */
  lemma {:induction false} ReadPlain(text: string, rest: string, cur: string)
    requires '"' !in text && ',' !in text
    ensures Parse(text + rest, cur, false) == Parse(rest, cur + text, false)
  {
    if text == "" {
      assert text + rest == rest && cur + text == cur;
    } else {
      assert text[0] in text;
      assert (text + rest)[1..] == text[1..] + rest;
      ReadPlain(text[1..], rest, cur + [text[0]]);
      assert cur + [text[0]] + text[1..] == cur + text;
    }
  }

  /** Inside quotes doubled quotes are read as one, up to the closing quote. */
  lemma {:induction false} ReadQuoted(text: string, rest: string, cur: string)
    requires rest == "" || rest[0] != '"'
    ensures Parse(Doubled(text) + "\"" + rest, cur, true) == Parse(rest, cur + text, false)
  {
    var all := Doubled(text) + "\"" + rest;
    if text == "" {
      assert all == "\"" + rest;
      assert all[1..] == rest && cur + text == cur;
    } else {
      var tail := Doubled(text[1..]) + "\"" + rest;
      ReadQuoted(text[1..], rest, cur + [text[0]]);
      assert cur + [text[0]] + text[1..] == cur + text;
      if text[0] == '"' {
        assert all == "\"\"" + tail;
        assert all[2..] == tail;
        assert [text[0]] == "\"";
      } else {
        assert all == [text[0]] + tail;
        assert all[1..] == tail;
      }
    }
  }

  lemma ReadCell(c: Cell, rest: string)
    requires Printable(c) && (rest == "" || rest[0] == ',')
    ensures Parse(PrintCell(c) + rest, "", false) == Parse(rest, c.text, false)
  {
    assert "" + c.text == c.text;
    if c.quoted {
      var inner := Doubled(c.text) + "\"" + rest;
      assert PrintCell(c) + rest == "\"" + inner;
      assert ("\"" + inner)[1..] == inner;
      ReadQuoted(c.text, rest, "");
    } else {
      ReadPlain(c.text, rest, "");
    }
  }

  function Trimmed(cells: seq<Cell>): seq<string>
  {
    seq(|cells|, i requires 0 <= i < |cells| => Trim(cells[i].text))
  }

  function Texts(cells: seq<Cell>): seq<string>
  {
    seq(|cells|, i requires 0 <= i < |cells| => cells[i].text)
  }

  /** Parsing a printed line gives back its fields, each trimmed. */
  lemma {:induction false} ParsePrint(cells: seq<Cell>)
    requires cells != [] && forall i :: 0 <= i < |cells| ==> Printable(cells[i])
    ensures Parse(Print(cells), "", false) == Trimmed(cells)
  {
    if |cells| == 1 {
      assert PrintCell(cells[0]) + "" == PrintCell(cells[0]);
      ReadCell(cells[0], "");
    } else {
      var rest := "," + Print(cells[1..]);
      assert Print(cells) == PrintCell(cells[0]) + rest;
      ReadCell(cells[0], rest);
      assert rest[1..] == Print(cells[1..]);
      ParsePrint(cells[1..]);
      assert Trimmed(cells) == [Trim(cells[0].text)] + Trimmed(cells[1..]);
    }
  }

  /** The round trip is exact precisely when no field has leading or trailing white space. */
  lemma RoundTripIff(cells: seq<Cell>)
    requires cells != [] && forall i :: 0 <= i < |cells| ==> Printable(cells[i])
    ensures Parse(Print(cells), "", false) == Texts(cells) <==> forall i :: 0 <= i < |cells| ==> IsTrimmed(cells[i].text)
  {
    ParsePrint(cells);
    forall i | 0 <= i < |cells|
      ensures Trimmed(cells)[i] == Texts(cells)[i] <==> IsTrimmed(cells[i].text)
    {
      TrimIsShorter(cells[i].text);
    }
  }
}
