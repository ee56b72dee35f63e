/** Delimited text as section 2 of RFC 4180 describes it: fields joined by
    commas, records joined by line breaks, and a quoted field in which every
    inner double quote is doubled (rule 7). The writer side is what the
    export produces; the reader side is an independent reference that reads
    such text back, so that the writer can be proved lossless. */
module Csv {
  import opened Scoring

  /** Doubles every double quote (JavaScript's `replace(/"/g, '""')`). */
  function Escape(s: string): (r: string)
    ensures |r| >= |s|
  {
    if s == [] then []
    else (if s[0] == '"' then "\"\"" else [s[0]]) + Escape(s[1..])
  }

  /** Surrounds a text with double quotes, as a template literal does. */
  function Wrap(s: string): string
  {
    "\"" + s + "\""
  }

  /** A quoted field whose inner quotes are escaped. */
  function Quote(s: string): string
  {
    Wrap(Escape(s))
  }

  /** How often `c` occurs in the parts altogether. */
  function Occurrences(parts: seq<string>, c: char): nat
  {
    if parts == [] then 0 else multiset(parts[0])[c] + Occurrences(parts[1..], c)
  }

  /** JavaScript's `Array.prototype.join`: separator between elements, empty
      for []. */
  function Join(parts: seq<string>, sep: char): (r: string)
  {
    if |parts| == 0 then []
    else if |parts| == 1 then parts[0]
    else parts[0] + [sep] + Join(parts[1..], sep)
  }

  /** Joining keeps every character of the parts and adds exactly one
      separator between each two of them. */
  lemma {:induction false} JoinCounts(parts: seq<string>, sep: char, c: char)
    ensures |parts| == 0 ==> Join(parts, sep) == []
    ensures |parts| > 0 ==>
      multiset(Join(parts, sep))[c] == Occurrences(parts, c) + (if c == sep then |parts| - 1 else 0)
  {
    if |parts| == 1 {
      assert parts[1..] == [];
    } else if |parts| > 1 {
      JoinCounts(parts[1..], sep, c);
      assert multiset(Join(parts, sep)) == multiset(parts[0]) + multiset([sep]) + multiset(Join(parts[1..], sep));
    }
  }

  /** One text line per record: its cells joined by commas. */
  function Lines(rows: seq<seq<string>>): (r: seq<string>)
    ensures |r| == |rows|
  {
    if rows == [] then [] else [Join(rows[0], ',')] + Lines(rows[1..])
  }

  /** The whole document: records joined by line feeds. */
  function Document(rows: seq<seq<string>>): string
  {
    Join(Lines(rows), '\n')
  }

  /** When no cell holds a line feed, the document has exactly one line per
      record. */
  lemma LinePerRecord(rows: seq<seq<string>>)
    requires |rows| > 0
    requires forall k :: 0 <= k < |rows| ==> Occurrences(rows[k], '\n') == 0
    ensures multiset(Document(rows))['\n'] == |rows| - 1
  {
    LinesFeedFree(rows);
    JoinCounts(Lines(rows), '\n', '\n');
  }

  /** Lines whose cells hold no line feed hold none either. */
  lemma {:induction false} LinesFeedFree(rows: seq<seq<string>>)
    ensures (forall k :: 0 <= k < |rows| ==> Occurrences(rows[k], '\n') == 0) ==>
      Occurrences(Lines(rows), '\n') == 0
  {
    if rows != [] && forall k :: 0 <= k < |rows| ==> Occurrences(rows[k], '\n') == 0 {
      assert Occurrences(rows[0], '\n') == 0;
      JoinCounts(rows[0], ',', '\n');
      assert forall k :: 0 <= k < |rows[1..]| ==> rows[1..][k] == rows[k + 1];
      LinesFeedFree(rows[1..]);
    }
  }

  /** A text that may stand unquoted: no separator, no quote, no line feed. */
  predicate PlainSafe(s: string)
  {
    forall k :: 0 <= k < |s| ==> s[k] != ',' && s[k] != '"' && s[k] != '\n'
  }

  /** A cell carries `value` when it is the quoted form of it or it is the
      value itself and that value may stand unquoted. */
  predicate Encodes(cell: string, value: string)
  {
    cell == Quote(value) || (cell == value && PlainSafe(value))
  }

  // ---------------------------------------------------------------------------
  // Reader

  function Prepend(c: char, r: Option<(string, string)>): Option<(string, string)>
  {
    match r
    case None => None
    case Some((v, rest)) => Some(([c] + v, rest))
  }

  /** Reads the body of a quoted field, after its opening quote; returns the
      unescaped value and what follows the closing quote. */
  function ReadQuoted(s: string): (r: Option<(string, string)>)
    ensures r.Some? ==> |r.value.1| < |s|
    decreases |s|
  {
    if |s| == 0 then None
    else if s[0] == '"' then
      if |s| > 1 && s[1] == '"' then Prepend('"', ReadQuoted(s[2..]))
      else Some(([], s[1..]))
    else Prepend(s[0], ReadQuoted(s[1..]))
  }

  /** Reads an unquoted field up to the next separator or line feed. */
  function ReadPlain(s: string): (r: (string, string))
    ensures |r.1| <= |s|
  {
    if |s| == 0 || s[0] == ',' || s[0] == '\n' then ([], s)
    else var (v, rest) := ReadPlain(s[1..]); ([s[0]] + v, rest)
  }

  function ReadField(s: string): (r: Option<(string, string)>)
    ensures r.Some? ==> |r.value.1| <= |s|
  {
    if |s| > 0 && s[0] == '"' then ReadQuoted(s[1..]) else Some(ReadPlain(s))
  }

  /** Reads records; `fields` holds the cells of the current record read so far. */
  function ReadRecords(s: string, fields: seq<string>): Option<seq<seq<string>>>
    decreases |s|
  {
    match ReadField(s)
    case None => None
    case Some((v, rest)) =>
      if rest == [] then Some([fields + [v]])
      else if rest[0] == ',' then ReadRecords(rest[1..], fields + [v])
      else if rest[0] == '\n' then AfterLine(fields + [v], ReadRecords(rest[1..], []))
      else None
  }

  function AfterLine(record: seq<string>, more: Option<seq<seq<string>>>): Option<seq<seq<string>>>
  {
    match more
    case None => None
    case Some(rs) => Some([record] + rs)
  }

  /** Reads a whole document into its records. */
  function Parse(s: string): Option<seq<seq<string>>>
  {
    ReadRecords(s, [])
  }

  // ---------------------------------------------------------------------------
  // Round trip

  /** What may follow a field: nothing, a separator or a line feed. */
  predicate FieldEnd(rest: string)
  {
    rest == [] || rest[0] == ',' || rest[0] == '\n'
  }

  lemma {:induction false} ReadQuotedEscaped(v: string, rest: string)
    requires rest == [] || rest[0] != '"'
    ensures ReadQuoted(Escape(v) + "\"" + rest) == Some((v, rest))
    decreases |v|
  {
    var s := Escape(v) + "\"" + rest;
    if v == [] {
      assert s == "\"" + rest;
      assert s[1..] == rest;
    } else {
      ReadQuotedEscaped(v[1..], rest);
      var tail := Escape(v[1..]) + "\"" + rest;
      if v[0] == '"' {
        assert s == "\"\"" + tail;
        assert s[2..] == tail;
      } else {
        assert s == [v[0]] + tail;
        assert s[1..] == tail;
      }
      assert [v[0]] + v[1..] == v;
    }
  }

  lemma {:induction false} ReadPlainSafe(v: string, rest: string)
    requires PlainSafe(v) && FieldEnd(rest)
    ensures ReadPlain(v + rest) == (v, rest)
    decreases |v|
  {
    if v == [] {
      assert v + rest == rest;
    } else {
      assert PlainSafe(v[1..]);
      ReadPlainSafe(v[1..], rest);
      assert (v + rest)[1..] == v[1..] + rest;
      assert [v[0]] + v[1..] == v;
    }
  }

  /** Unquoting a cell recovers its value, and the reader stops exactly at
      the cell's end. */
  lemma FieldRoundTrip(cell: string, value: string, rest: string)
    requires Encodes(cell, value) && FieldEnd(rest)
    ensures ReadField(cell + rest) == Some((value, rest))
  {
    if cell == Quote(value) {
      ReadQuotedEscaped(value, rest);
      assert cell + rest == "\"" + (Escape(value) + "\"" + rest);
      assert (cell + rest)[1..] == Escape(value) + "\"" + rest;
    } else {
      ReadPlainSafe(value, rest);
    }
  }

  /** Unquoting of a single quoted cell: the reader recovers the text,
      whatever quotes, separators or line feeds it holds. */
  lemma UnquoteQuote(s: string)
    ensures ReadField(Quote(s)) == Some((s, []))
  {
    FieldRoundTrip(Quote(s), s, []);
    assert Quote(s) + [] == Quote(s);
  }

  predicate EncodesAll(cells: seq<string>, values: seq<string>)
  {
    |cells| == |values| && forall k :: 0 <= k < |cells| ==> Encodes(cells[k], values[k])
  }

  /** What the reader yields after a record ends at `tail`. */
  function Continue(record: seq<string>, tail: string): Option<seq<seq<string>>>
    requires tail == [] || tail[0] == '\n'
  {
    if tail == [] then Some([record]) else AfterLine(record, ReadRecords(tail[1..], []))
  }

  /** The last cell of a record is read, and the record ends with it. */
  lemma ReadLastField(cell: string, value: string, fields: seq<string>, tail: string)
    requires Encodes(cell, value)
    requires tail == [] || tail[0] == '\n'
    ensures ReadRecords(cell + tail, fields) == Continue(fields + [value], tail)
  {
    FieldRoundTrip(cell, value, tail);
  }

  /** A cell followed by a separator is read, and the record goes on. */
  lemma ReadInnerField(cell: string, value: string, fields: seq<string>, more: string)
    requires Encodes(cell, value)
    ensures ReadRecords(cell + ([','] + more), fields) == ReadRecords(more, fields + [value])
  {
    FieldRoundTrip(cell, value, [','] + more);
    assert ([','] + more)[1..] == more;
  }

  lemma {:induction false} RecordRoundTrip(cells: seq<string>, values: seq<string>, fields: seq<string>, tail: string)
    requires |cells| > 0 && EncodesAll(cells, values)
    requires tail == [] || tail[0] == '\n'
    ensures ReadRecords(Join(cells, ',') + tail, fields) == Continue(fields + values, tail)
    decreases |cells|
  {
    if |cells| == 1 {
      ReadLastField(cells[0], values[0], fields, tail);
      assert values == [values[0]];
    } else {
      var more := Join(cells[1..], ',') + tail;
      assert Join(cells, ',') + tail == cells[0] + ([','] + more);
      ReadInnerField(cells[0], values[0], fields, more);
      assert EncodesAll(cells[1..], values[1..]);
      RecordRoundTrip(cells[1..], values[1..], fields + [values[0]], tail);
      assert fields + [values[0]] + values[1..] == fields + values;
    }
  }

  /** Reading a written document gives back exactly the values of its records,
      provided every cell encodes its value and no record is empty. */
  lemma {:induction false} DocumentRoundTrip(rows: seq<seq<string>>, values: seq<seq<string>>)
    requires |rows| > 0 && |rows| == |values|
    requires forall r :: 0 <= r < |rows| ==> |rows[r]| > 0 && EncodesAll(rows[r], values[r])
    ensures Parse(Document(rows)) == Some(values)
    decreases |rows|
  {
    if |rows| == 1 {
      var none: seq<string> := [];
      RecordRoundTrip(rows[0], values[0], none, []);
      assert Document(rows) + [] == Join(rows[0], ',');
      assert none + values[0] == values[0];
      assert values == [values[0]];
    } else {
      var tail := ['\n'] + Document(rows[1..]);
      assert Lines(rows)[1..] == Lines(rows[1..]);
      assert Document(rows) == Join(rows[0], ',') + tail;
      var none: seq<string> := [];
      RecordRoundTrip(rows[0], values[0], none, tail);
      assert none + values[0] == values[0];
      assert tail[1..] == Document(rows[1..]);
      DocumentRoundTrip(rows[1..], values[1..]);
      assert [values[0]] + values[1..] == values;
    }
  }

  lemma {:induction false} EscapeWithoutQuotes(s: string)
    requires forall k :: 0 <= k < |s| ==> s[k] != '"'
    ensures Escape(s) == s
    decreases |s|
  {
    if s != [] {
      EscapeWithoutQuotes(s[1..]);
    }
  }

  /** Wrapping a quote-free text in quotes already is its quoted form. */
  lemma WrapIsQuote(s: string)
    requires forall k :: 0 <= k < |s| ==> s[k] != '"'
    ensures Encodes(Wrap(s), s)
  {
    EscapeWithoutQuotes(s);
  }

  /** A text containing a quote, wrapped without escaping, does not read back. */
  lemma WrapWithQuoteIsLossy()
    ensures Parse(Wrap("a\"b")) != Some([["a\"b"]])
  {
    assert Wrap("a\"b") == "\"a\"b\"";
    var body := "a\"b\"";
    assert body[1..] == "\"b\"";
    assert body[1..][1..] == "b\"";
    assert ReadQuoted(body[1..]) == Some(([], "b\""));
    assert body[0] == 'a' && ['a'] + [] == "a";
    assert ReadQuoted(body) == Some(("a", "b\""));
  }
}
