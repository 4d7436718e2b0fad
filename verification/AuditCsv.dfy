/**
 The audit export as comma-separated values, and a reader for it after section 2
 of RFC 4180 that also accepts bare line feeds as line ends.
 */
module AuditCsv {
  import opened Common

  // ----- the writer

  predicate TimeChar(c: char) {
    '0' <= c <= '9' || c == '-' || c == ':' || c == '+' || c == 'T' || c == 'Z'
  }

  /** Text made of the characters an RFC 3339 time stamp is made of. */
  type TimeText = s: string | forall i | 0 <= i < |s| :: TimeChar(s[i]) witness "0"

  datatype Entry = Entry(
    time: TimeText, eventType: string, clientId: string, username: string, serverName: string, detailsJson: string)

  /** Starts with a character that a spreadsheet would take for a formula. */
  predicate Dangerous(s: string) {
    s != [] && (s[0] == '=' || s[0] == '+' || s[0] == '-' || s[0] == '@' || s[0] == '\t' || s[0] == '\r')
  }

  function Guarded(s: string): string {
    if Dangerous(s) then ['\''] + s else s
  }

  predicate Special(c: char) {
    c == ',' || c == '"' || c == '\n' || c == '\r'
  }

  predicate Plain(s: string) {
    forall i | 0 <= i < |s| :: !Special(s[i])
  }

  function Doubled(s: string): string {
    if s == [] then []
    else Doubled(s[..|s| - 1]) + if s[|s| - 1] == '"' then ['"', '"'] else [s[|s| - 1]]
  }

  function Quoted(s: string): string {
    if Plain(s) then s else ['"'] + Doubled(s) + ['"']
  }

  function Escape(s: string): string {
    Quoted(Guarded(s))
  }

  function Six(a: string, b: string, c: string, d: string, e: string, f: string): string {
    a + [','] + b + [','] + c + [','] + d + [','] + e + [','] + f + ['\n']
  }

  function Row(e: Entry): string {
    Six(e.time, Escape(e.eventType), Escape(e.clientId),
        Escape(e.username), Escape(e.serverName), Escape(e.detailsJson))
  }

  function Header(): string {
    Six("time", "event_type", "client_id", "username", "server_name", "details")
  }

  function Rows(entries: seq<Entry>): string {
    if entries == [] then "" else Rows(entries[..|entries| - 1]) + Row(entries[|entries| - 1])
  }

  function Export(entries: seq<Entry>): string {
    Header() + Rows(entries)
  }

  method WriteAuditCSV(entries: seq<Entry>) returns (out: string)
    ensures out == Export(entries)
  {
    hide Header, Row;
    out := Header();
    for i := 0 to |entries|
      invariant out == Header() + Rows(entries[..i])
    {
      assert entries[..i + 1][..i] == entries[..i];
      out := out + Row(entries[i]);
    }
    assert entries[..|entries|] == entries;
  }

  // ----- the reader

  datatype Field = Field(text: string)

  datatype Line = Line(fields: seq<Field>)

  datatype Mode = FieldStart | Unquoted | Quoting | QuoteSeen | ReturnSeen

  datatype Reader =
    | Reading(mode: Mode, text: string, fields: seq<Field>, lines: seq<Line>)
    | Failed

  function Fresh(fields: seq<Field>, lines: seq<Line>): Reader {
    Reading(FieldStart, "", fields, lines)
  }

  function EndField(r: Reader): Reader
    requires r.Reading?
  {
    Fresh(r.fields + [Field(r.text)], r.lines)
  }

  function EndLine(r: Reader): Reader
    requires r.Reading?
  {
    Fresh([], r.lines + [Line(r.fields + [Field(r.text)])])
  }

  function Step(r: Reader, c: char): Reader {
    if r.Failed? then r
    else if r.mode.Quoting? then
      if c == '"' then r.(mode := QuoteSeen) else r.(text := r.text + [c])
    else if r.mode.ReturnSeen? then
      if c == '\n' then EndLine(r) else Failed
    else if c == ',' then EndField(r)
    else if c == '\n' then EndLine(r)
    else if c == '\r' then r.(mode := ReturnSeen)
    else if r.mode.QuoteSeen? then
      if c == '"' then r.(mode := Quoting, text := r.text + [c]) else Failed
    else if c == '"' then
      if r.mode.FieldStart? then r.(mode := Quoting) else Failed
    else r.(mode := Unquoted, text := r.text + [c])
  }

  function Read(r: Reader, s: string): Reader {
    if s == [] then r else Step(Read(r, s[..|s| - 1]), s[|s| - 1])
  }

  /** The lines of a text; the line end of the last one may be missing. */
  function Parse(s: string): Option<seq<Line>> {
    match Read(Fresh([], []), s)
    case Failed => None
    case Reading(mode, text, fields, lines) =>
      if mode.Quoting? || mode.ReturnSeen? then None
      else if mode.FieldStart? && fields == [] then Some(lines)
      else Some(lines + [Line(fields + [Field(text)])])
  }

  lemma {:induction false} ReadConcat(r: Reader, a: string, b: string)
    ensures Read(r, a + b) == Read(Read(r, a), b)
  {
    if b == [] {
      assert a + b == a;
    } else {
      ReadConcat(r, a, b[..|b| - 1]);
      assert (a + b)[..|a + b| - 1] == a + b[..|b| - 1];
    }
  }

  lemma ReadOne(r: Reader, c: char)
    ensures Read(r, [c]) == Step(r, c)
  {
    assert [c][..0] == [];
  }

  // ----- reading a printed field

  /** The reader has a whole field and waits for what ends it. */
  predicate HasField(r: Reader, text: string, fields: seq<Field>, lines: seq<Line>) {
    && r.Reading? && r.text == text && r.fields == fields && r.lines == lines
    && (r.mode.FieldStart? || r.mode.Unquoted? || r.mode.QuoteSeen?)
  }

  lemma {:induction false} PlainIsRead(s: string, fields: seq<Field>, lines: seq<Line>)
    requires Plain(s)
    ensures Read(Fresh(fields, lines), s) == Reading(if s == [] then FieldStart else Unquoted, s, fields, lines)
  {
    if s != [] {
      PlainIsRead(s[..|s| - 1], fields, lines);
      assert !Special(s[|s| - 1]);
      assert s == s[..|s| - 1] + [s[|s| - 1]];
    }
  }

  lemma {:induction false} DoubledIsRead(s: string, fields: seq<Field>, lines: seq<Line>)
    ensures Read(Reading(Quoting, "", fields, lines), Doubled(s)) == Reading(Quoting, s, fields, lines)
  {
    if s != [] {
      var init, c := s[..|s| - 1], s[|s| - 1];
      DoubledIsRead(init, fields, lines);
      assert s == init + [c];
      var r := Reading(Quoting, "", fields, lines);
      if c == '"' {
        ReadConcat(r, Doubled(init), ['"', '"']);
        ReadTwo(Reading(Quoting, init, fields, lines), '"', '"');
      } else {
        ReadConcat(r, Doubled(init), [c]);
        ReadOne(Reading(Quoting, init, fields, lines), c);
      }
    }
  }

  lemma ReadTwo(r: Reader, c: char, d: char)
    ensures Read(r, [c, d]) == Step(Step(r, c), d)
  {
    ReadConcat(r, [c], [d]);
    ReadOne(r, c);
    ReadOne(Step(r, c), d);
    assert [c] + [d] == [c, d];
  }

  lemma QuotesAreRead(s: string, fields: seq<Field>, lines: seq<Line>)
    ensures Step(Fresh(fields, lines), '"') == Reading(Quoting, "", fields, lines)
    ensures Step(Reading(Quoting, s, fields, lines), '"') == Reading(QuoteSeen, s, fields, lines)
  {}

  lemma QuotedIsRead(s: string, fields: seq<Field>, lines: seq<Line>)
    ensures HasField(Read(Fresh(fields, lines), Quoted(s)), s, fields, lines)
  {
    var r := Fresh(fields, lines);
    if Plain(s) {
      PlainIsRead(s, fields, lines);
    } else {
      QuotesAreRead(s, fields, lines);
      hide Read, Doubled, Step, Plain;
      ReadConcat(r, ['"'] + Doubled(s), ['"']);
      ReadConcat(r, ['"'], Doubled(s));
      ReadOne(r, '"');
      DoubledIsRead(s, fields, lines);
      ReadOne(Reading(Quoting, s, fields, lines), '"');
    }
  }

  // ----- reading a printed line

  /** Fields as they are printed, with commas between them. */
  function Commas(fields: seq<Field>): string
    requires fields != []
  {
    var last := |fields| - 1;
    if last == 0 then Quoted(fields[0].text) else Commas(fields[..last]) + [','] + Quoted(fields[last].text)
  }

  lemma CommasSnoc(fields: seq<Field>, f: Field)
    requires fields != []
    ensures Commas(fields + [f]) == Commas(fields) + [','] + Quoted(f.text)
  {
    assert (fields + [f])[..|fields|] == fields;
  }

  lemma CommaIsRead(r: Reader, text: string, fields: seq<Field>, lines: seq<Line>)
    requires HasField(r, text, fields, lines)
    ensures Read(r, [',']) == Fresh(fields + [Field(text)], lines)
  {
    ReadOne(r, ',');
  }

  lemma NewlineIsRead(r: Reader, text: string, fields: seq<Field>, lines: seq<Line>)
    requires HasField(r, text, fields, lines)
    ensures Read(r, ['\n']) == Fresh([], lines + [Line(fields + [Field(text)])])
  {
    ReadOne(r, '\n');
  }

  lemma {:induction false} OneMoreField(init: seq<Field>, g: Field, f: Field, lines: seq<Line>)
    requires HasField(Read(Fresh([], lines), Commas(init + [g])), g.text, init, lines)
    ensures HasField(Read(Fresh([], lines), Commas(init + [g] + [f])), f.text, init + [g], lines)
  {
    hide *;
    var fields, r := init + [g], Fresh([], lines);
    CommasSnoc(fields, f);
    ReadConcat(r, Commas(fields) + [','], Quoted(f.text));
    ReadConcat(r, Commas(fields), [',']);
    CommaIsRead(Read(r, Commas(fields)), g.text, init, lines);
    QuotedIsRead(f.text, fields, lines);
  }

  lemma SplitLast<T>(s: seq<T>)
    requires s != []
    ensures s == s[..|s| - 1] + [s[|s| - 1]]
  {}

  lemma {:induction false} CommasAreRead(init: seq<Field>, f: Field, lines: seq<Line>)
    ensures HasField(Read(Fresh([], lines), Commas(init + [f])), f.text, init, lines)
  {
    if init == [] {
      assert [] + [f] == [f];
      QuotedIsRead(f.text, [], lines);
    } else {
      var last := |init| - 1;
      CommasAreRead(init[..last], init[last], lines);
      hide *;
      SplitLast(init);
      OneMoreField(init[..last], init[last], f, lines);
    }
  }

  function Printed(line: Line): string
    requires line.fields != []
  {
    Commas(line.fields) + ['\n']
  }

  lemma LineIsRead(line: Line, lines: seq<Line>)
    requires line.fields != []
    ensures Read(Fresh([], lines), Printed(line)) == Fresh([], lines + [line])
  {
    var last := |line.fields| - 1;
    var init, f := line.fields[..last], line.fields[last];
    CommasAreRead(init, f, lines);
    SplitLast(line.fields);
    hide Commas, Read, HasField, Fresh;
    ReadConcat(Fresh([], lines), Commas(line.fields), ['\n']);
    NewlineIsRead(Read(Fresh([], lines), Commas(line.fields)), f.text, init, lines);
  }

  // ----- reading the export

  function HeaderLine(): (line: Line)
    ensures |line.fields| == 6
  {
    Line([Field("time"), Field("event_type"), Field("client_id"),
          Field("username"), Field("server_name"), Field("details")])
  }

  /** The line an entry is read back as. */
  function EntryLine(e: Entry): (line: Line)
    ensures |line.fields| == 6
  {
    Line([Field(e.time), Field(Guarded(e.eventType)), Field(Guarded(e.clientId)),
          Field(Guarded(e.username)), Field(Guarded(e.serverName)), Field(Guarded(e.detailsJson))])
  }

  function EntryLines(entries: seq<Entry>): seq<Line> {
    if entries == [] then [] else EntryLines(entries[..|entries| - 1]) + [EntryLine(entries[|entries| - 1])]
  }

  lemma SixFields(a: Field, b: Field, c: Field, d: Field, e: Field, f: Field)
    ensures Printed(Line([a, b, c, d, e, f])) ==
            Six(Quoted(a.text), Quoted(b.text), Quoted(c.text), Quoted(d.text), Quoted(e.text), Quoted(f.text))
  {
    assert Commas([a]) == Quoted(a.text);
    CommasSnoc([a], b);
    CommasSnoc([a, b], c);
    CommasSnoc([a, b, c], d);
    CommasSnoc([a, b, c, d], e);
    CommasSnoc([a, b, c, d, e], f);
    hide Commas, Quoted;
    assert [a] + [b] == [a, b] && [a, b] + [c] == [a, b, c] && [a, b, c] + [d] == [a, b, c, d];
    assert [a, b, c, d] + [e] == [a, b, c, d, e] && [a, b, c, d, e] + [f] == [a, b, c, d, e, f];
  }

  lemma TimeIsPlain(time: TimeText)
    ensures Quoted(time) == time
  {
    assert forall i | 0 <= i < |time| :: TimeChar(time[i]);
  }

  lemma HeaderIsALine()
    ensures Header() == Printed(HeaderLine())
  {
    assert Plain("time") && Plain("event_type") && Plain("client_id");
    assert Plain("username") && Plain("server_name") && Plain("details");
    hide Printed, Six, Plain;
    SixFields(Field("time"), Field("event_type"), Field("client_id"),
              Field("username"), Field("server_name"), Field("details"));
  }

  lemma RowIsALine(e: Entry)
    ensures Row(e) == Printed(EntryLine(e))
  {
    TimeIsPlain(e.time);
    hide Quoted, Guarded, Printed, Six;
    SixFields(Field(e.time), Field(Guarded(e.eventType)), Field(Guarded(e.clientId)),
              Field(Guarded(e.username)), Field(Guarded(e.serverName)), Field(Guarded(e.detailsJson)));
  }

  lemma ExportSnoc(entries: seq<Entry>, e: Entry)
    ensures Export(entries + [e]) == Export(entries) + Row(e)
    ensures EntryLines(entries + [e]) == EntryLines(entries) + [EntryLine(e)]
  {
    hide Row, Header;
    assert (entries + [e])[..|entries|] == entries;
  }

  lemma {:induction false} RowsAreRead(entries: seq<Entry>)
    ensures Read(Fresh([], []), Export(entries)) == Fresh([], [HeaderLine()] + EntryLines(entries))
  {
    if entries == [] {
      HeaderIsALine();
      LineIsRead(HeaderLine(), []);
      hide Header, HeaderLine, Read, Printed;
      assert Header() + "" == Header();
      assert [] + [HeaderLine()] == [HeaderLine()] + [];
    } else {
      var init, e := entries[..|entries| - 1], entries[|entries| - 1];
      assert entries == init + [e];
      RowsAreRead(init);
      ExportSnoc(init, e);
      RowIsALine(e);
      LineIsRead(EntryLine(e), [HeaderLine()] + EntryLines(init));
      hide *;
      ReadConcat(Fresh([], []), Export(init), Row(e));
      assert [HeaderLine()] + EntryLines(init) + [EntryLine(e)] == [HeaderLine()] + (EntryLines(init) + [EntryLine(e)]);
    }
  }

  /** The export is read back as the header and one six-field line per entry. */
  lemma ExportIsReadBack(entries: seq<Entry>)
    ensures Parse(Export(entries)) == Some([HeaderLine()] + EntryLines(entries))
  {
    RowsAreRead(entries);
  }

  // ----- the guard

  /** A guarded field never looks like a formula; it is the original unless that did. */
  lemma GuardIsSafe(s: string)
    ensures !Dangerous(Guarded(s))
    ensures Guarded(s) == s <==> !Dangerous(s)
    ensures Dangerous(s) <==> s != "" && s[0] in {'=', '+', '-', '@', '\t', '\r'}
  {}

  /** Two texts share their guarded form exactly when one is the other's guarded form. */
  lemma GuardCollisions(a: string, b: string)
    requires a != b
    ensures Guarded(a) == Guarded(b) <==> (Dangerous(a) && b == ['\''] + a) || (Dangerous(b) && a == ['\''] + b)
  {
    if Dangerous(a) && Dangerous(b) {
      assert (['\''] + a)[1..] == a && (['\''] + b)[1..] == b;
    }
  }

  lemma GuardLosesTheDifference()
    ensures Guarded("=x") == Guarded("'=x")
  {}
}
