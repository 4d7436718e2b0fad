/**
 Server-sent events: the writer of the gateway and the reader of the command line
 proxy.  The format is section 9.2 of the WHATWG HTML standard.
 */
module Sse {
  import opened Text

  // ----- lines

  /** The lines closed by a newline, and the text after the last one. */
  function Cut(s: string): (seq<string>, string) {
    if s == [] then ([], [])
    else
      var (lines, open) := Cut(s[..|s| - 1]);
      var c := s[|s| - 1];
      if c == '\n' then (lines + [open], []) else (lines, open + [c])
  }

  /** All pieces between newlines, also an empty last one. */
  function Split(s: string): (pieces: seq<string>)
    ensures pieces != []
  {
    Cut(s).0 + [Cut(s).1]
  }

  predicate OneLine(s: string) {
    '\n' !in s
  }

  lemma CutSnoc(s: string, c: char)
    ensures Cut(s + [c]) == if c == '\n' then (Cut(s).0 + [Cut(s).1], []) else (Cut(s).0, Cut(s).1 + [c])
  {
    assert (s + [c])[..|s|] == s;
  }

  lemma {:induction false} CutOneLine(a: string, b: string)
    requires OneLine(b)
    ensures Cut(a + b) == (Cut(a).0, Cut(a).1 + b)
  {
    if b == [] {
      assert a + b == a && Cut(a).1 + b == Cut(a).1;
    } else {
      var b', c := b[..|b| - 1], b[|b| - 1];
      assert b == b' + [c] && a + b == a + b' + [c];
      CutOneLine(a, b');
      CutSnoc(a + b', c);
      assert Cut(a).1 + b' + [c] == Cut(a).1 + b;
    }
  }

  /** Text that ends with a newline is cut independently of what follows. */
  lemma {:induction false} CutAfterNewline(a: string, b: string)
    requires Cut(a).1 == []
    ensures Cut(a + b) == (Cut(a).0 + Cut(b).0, Cut(b).1)
  {
    if b == [] {
      assert a + b == a && Cut(a).0 + [] == Cut(a).0;
    } else {
      var b', c := b[..|b| - 1], b[|b| - 1];
      assert b == b' + [c] && a + b == a + b' + [c];
      CutAfterNewline(a, b');
      CutSnoc(a + b', c);
      CutSnoc(b', c);
      assert Cut(a).0 + Cut(b').0 + [Cut(b').1] == Cut(a).0 + (Cut(b').0 + [Cut(b').1]);
    }
  }

  /** A line printed with its newline. */
  lemma CutLine(line: string)
    requires OneLine(line)
    ensures Cut(line + "\n") == ([line], [])
  {
    CutOneLine([], line);
    assert [] + line == line;
    CutSnoc(line, '\n');
    assert [] + [line] == [line];
  }

  lemma {:induction false} CutPiecesAreLines(s: string)
    ensures OneLine(Cut(s).1) && forall i | 0 <= i < |Cut(s).0| :: OneLine(Cut(s).0[i])
  {
    if s != [] { CutPiecesAreLines(s[..|s| - 1]); }
  }

  // ----- the writer

  datatype Message = Event(name: string, data: string) | Keepalive

  function DataLine(line: string): string {
    "data: " + line + "\n"
  }

  function PrintedLines(lines: seq<string>): string {
    if lines == [] then "" else PrintedLines(lines[..|lines| - 1]) + DataLine(lines[|lines| - 1])
  }

  function EventLine(name: string): string {
    "event: " + name + "\n"
  }

  function Heading(name: string): string {
    if Trim(name) != "" then EventLine(name) else ""
  }

  function Printed(m: Message): string {
    match m
    case Event(name, data) =>
      Heading(name) + PrintedLines(Split(data)) + "\n"
    case Keepalive => ": keepalive" + "\n" + "\n"
  }

  function Stream(messages: seq<Message>): string {
    if messages == [] then "" else Stream(messages[..|messages| - 1]) + Printed(messages[|messages| - 1])
  }

  lemma PrintedOneMore(lines: seq<string>, i: nat)
    requires i < |lines|
    ensures PrintedLines(lines[..i + 1]) == PrintedLines(lines[..i]) + DataLine(lines[i])
  {
    assert lines[..i + 1][..i] == lines[..i];
  }

  lemma Associate<T>(a: seq<T>, b: seq<T>, c: seq<T>)
    ensures a + b + c == a + (b + c)
  {}

  lemma PrintedEvent(before: string, name: string, data: string)
    ensures before + Heading(name) + PrintedLines(Split(data)) + "\n" == before + Printed(Event(name, data))
  {
    hide Heading, PrintedLines, Split;
    Associate(before, Heading(name), PrintedLines(Split(data)));
    Associate(before, Heading(name) + PrintedLines(Split(data)), "\n");
  }

  class SseWriter {
    var out: string

    constructor ()
      ensures out == Stream([])
    {
      out := "";
    }

    method WriteDataLines(lines: seq<string>)
      modifies this
      ensures out == old(out) + PrintedLines(lines)
    {
      assert PrintedLines(lines[..0]) == "";
      hide DataLine, PrintedLines;
      for i := 0 to |lines|
        invariant out == old(out) + PrintedLines(lines[..i])
      {
        PrintedOneMore(lines, i);
        Associate(old(out), PrintedLines(lines[..i]), DataLine(lines[i]));
        out := out + DataLine(lines[i]);
      }
      assert lines[..|lines|] == lines;
    }

    method WriteEvent(name: string, data: string)
      modifies this
      ensures out == old(out) + Printed(Event(name, data))
    {
      hide Trim, EventLine, Split, PrintedLines;
      if Trim(name) != "" {
        out := out + EventLine(name);
      }
      assert out == old(out) + Heading(name);
      WriteDataLines(Split(data));
      out := out + "\n";
      PrintedEvent(old(out), name, data);
    }

    method WriteKeepalive()
      modifies this
      ensures out == old(out) + Printed(Message.Keepalive)
    {
      out := out + (": keepalive" + "\n" + "\n");
    }
  }

  // ----- the lines of a stream

  function DataLines(lines: seq<string>): seq<string> {
    if lines == [] then [] else DataLines(lines[..|lines| - 1]) + ["data: " + lines[|lines| - 1]]
  }

  /** The lines a message is printed as.  Newlines in an event name start lines of
      their own. */
  function MessageLines(m: Message): seq<string> {
    match m
    case Event(name, data) =>
      (if Trim(name) != "" then NameLines(name) else []) + DataLines(Split(data)) + [""]
    case Keepalive => [": keepalive", ""]
  }

  function NameLines(name: string): seq<string> {
    ["event: " + Split(name)[0]] + Split(name)[1..]
  }

  function StreamLines(messages: seq<Message>): seq<string> {
    if messages == [] then []
    else StreamLines(messages[..|messages| - 1]) + MessageLines(messages[|messages| - 1])
  }

  lemma CutLinePair(a: string, la: seq<string>, b: string, lb: seq<string>)
    requires Cut(a) == (la, []) && Cut(b) == (lb, [])
    ensures Cut(a + b) == (la + lb, [])
  {
    CutAfterNewline(a, b);
  }

  lemma {:induction false} CutDataLines(lines: seq<string>)
    requires forall i | 0 <= i < |lines| :: OneLine(lines[i])
    ensures Cut(PrintedLines(lines)) == (DataLines(lines), [])
  {
    if lines != [] {
      var init, last := lines[..|lines| - 1], lines[|lines| - 1];
      CutDataLines(init);
      CutLine("data: " + last);
      hide Cut, OneLine;
      CutLinePair(PrintedLines(init), DataLines(init), DataLine(last), ["data: " + last]);
    }
  }

  /** A prefix without newlines goes to the first piece. */
  lemma {:induction false} CutPrefixed(p: string, s: string)
    requires OneLine(p)
    ensures Split(p + s) == [p + Split(s)[0]] + Split(s)[1..]
  {
    if s == [] {
      CutOneLine([], p);
      assert [] + p == p && p + s == p && p + [] == p;
    } else {
      var s', c := s[..|s| - 1], s[|s| - 1];
      assert s == s' + [c] && p + s == p + s' + [c];
      CutPrefixed(p, s');
      CutSnoc(p + s', c);
      CutSnoc(s', c);
      var pieces := Split(s');
      if c == '\n' {
        assert [p + pieces[0]] + pieces[1..] + [[]] == [p + (pieces + [[]])[0]] + (pieces + [[]])[1..];
      } else {
        LastPieceGrows(Cut(s').0, Cut(s').1, c);
        LastPieceGrows(Cut(p + s').0, Cut(p + s').1, c);
        hide Cut;
        PrefixThenGrow(p, pieces, c);
      }
    }
  }

  function Grown(pieces: seq<string>, c: char): seq<string>
    requires pieces != []
  {
    pieces[..|pieces| - 1] + [pieces[|pieces| - 1] + [c]]
  }

  lemma LastPieceGrows(lines: seq<string>, open: string, c: char)
    ensures Grown(lines + [open], c) == lines + [open + [c]]
  {
    assert (lines + [open])[..|lines|] == lines;
  }

  lemma PrefixThenGrow(p: string, pieces: seq<string>, c: char)
    requires pieces != []
    ensures Grown([p + pieces[0]] + pieces[1..], c) == [p + Grown(pieces, c)[0]] + Grown(pieces, c)[1..]
  {
    if |pieces| == 1 {
      Associate(p, pieces[0], [c]);
    }
  }

  lemma CutEventLine(name: string)
    ensures Cut(EventLine(name)) == (NameLines(name), [])
  {
    CutPrefixed("event: ", name);
    CutSnoc("event: " + name, '\n');
  }

  lemma CutKeepalive()
    ensures Cut(": keepalive" + "\n" + "\n") == ([": keepalive", ""], [])
  {
    CutLine(": keepalive");
    CutLine("");
    hide Cut;
    assert "" + "\n" == "\n";
    CutLinePair(": keepalive" + "\n", [": keepalive"], "\n", [""]);
    assert [": keepalive"] + [""] == [": keepalive", ""];
  }

  lemma CutMessage(m: Message)
    ensures Cut(Printed(m)) == (MessageLines(m), [])
  {
    match m
    case Keepalive => CutKeepalive();
    case Event(name, data) => {
      CutPiecesAreLines(data);
      CutDataLines(Split(data));
      CutEventLine(name);
      CutLine("");
      assert "" + "\n" == "\n";
      assert Cut(Heading(name)) == (if Trim(name) != "" then NameLines(name) else [], []);
      hide Cut, Split, EventLine, NameLines, PrintedLines, DataLines, Trim;
      var head := if Trim(name) != "" then NameLines(name) else [];
      CutLinePair(Heading(name), head, PrintedLines(Split(data)), DataLines(Split(data)));
      CutLinePair(Heading(name) + PrintedLines(Split(data)), head + DataLines(Split(data)), "\n", [""]);
    }
  }

  /** Reading a stream line by line gives the lines of its messages. */
  lemma {:induction false} CutStream(messages: seq<Message>)
    ensures Cut(Stream(messages)) == (StreamLines(messages), [])
  {
    if messages != [] {
      var init, last := messages[..|messages| - 1], messages[|messages| - 1];
      CutStream(init);
      CutMessage(last);
      hide Cut, Printed, MessageLines;
      CutLinePair(Stream(init), StreamLines(init), Printed(last), MessageLines(last));
    }
  }

  // ----- the reader

  const MAX_LINE: nat := 1_048_576

  /** The lines of a body; a last one without a newline counts unless it is empty. */
  function RawLines(body: string): seq<string> {
    Cut(body).0 + if Cut(body).1 == [] then [] else [Cut(body).1]
  }

  /** Reading stops for good at a line that does not fit the buffer. */
  function Readable(lines: seq<string>): seq<string> {
    if lines == [] || |lines[0]| >= MAX_LINE then [] else [lines[0]] + Readable(lines[1..])
  }

  function DropCR(line: string): string {
    if line != [] && line[|line| - 1] == '\r' then line[..|line| - 1] else line
  }

  /** What a line contributes; nothing unless it is a data line. */
  function LineData(line: string): string {
    var text := DropCR(line);
    if HasPrefix(text, "data:") then Trim(TrimPrefix(text, "data:")) else ""
  }

  function DataPart(line: string): seq<string> {
    if LineData(line) == "" then [] else [LineData(line)]
  }

  function Datas(lines: seq<string>): seq<string> {
    if lines == [] then [] else Datas(lines[..|lines| - 1]) + DataPart(lines[|lines| - 1])
  }

  function Joined(parts: seq<string>): string {
    if parts == [] then ""
    else if |parts| == 1 then parts[0]
    else Joined(parts[..|parts| - 1]) + "\n" + parts[|parts| - 1]
  }

  function Extract(body: string): string {
    Joined(Datas(Readable(RawLines(body))))
  }

  predicate NoneEmpty(parts: seq<string>) {
    forall i | 0 <= i < |parts| :: parts[i] != ""
  }

  lemma {:induction false} DatasAreNotEmpty(lines: seq<string>)
    ensures NoneEmpty(Datas(lines))
  {
    if lines != [] {
      DatasAreNotEmpty(lines[..|lines| - 1]);
      hide LineData;
    }
  }

  lemma JoinedIsEmpty(parts: seq<string>)
    requires NoneEmpty(parts)
    ensures Joined(parts) == "" <==> parts == []
  {}

  lemma JoinedSnoc(parts: seq<string>, x: string)
    requires NoneEmpty(parts)
    ensures Joined(parts + [x]) == if Joined(parts) == "" then x else Joined(parts) + "\n" + x
  {
    JoinedIsEmpty(parts);
    assert (parts + [x])[..|parts|] == parts;
  }

  lemma {:induction false} ReadableIsPrefix(lines: seq<string>, n: nat)
    requires n <= |lines| && forall i | 0 <= i < n :: |lines[i]| < MAX_LINE
    requires n < |lines| ==> |lines[n]| >= MAX_LINE
    ensures Readable(lines) == lines[..n]
  {
    if n > 0 {
      ReadableIsPrefix(lines[1..], n - 1);
      assert lines[..n] == [lines[0]] + lines[1..][..n - 1];
    }
  }

  function Appended(result: string, data: string): string {
    if data == "" then result else if result == "" then data else result + "\n" + data
  }

  /** The extract of the first n lines. */
  function ExtractTo(lines: seq<string>, n: nat): string
    requires n <= |lines|
  {
    Joined(Datas(lines[..n]))
  }

  lemma NoLine(lines: seq<string>)
    ensures ExtractTo(lines, 0) == ""
  {}

  lemma OneMoreLine(lines: seq<string>, i: nat)
    requires i < |lines|
    ensures ExtractTo(lines, i + 1) == Appended(ExtractTo(lines, i), LineData(lines[i]))
  {
    DatasAreNotEmpty(lines[..i]);
    DatasSnoc(lines, i);
    hide Datas, LineData;
    JoinedSnoc(Datas(lines[..i]), LineData(lines[i]));
  }

  lemma AllReadable(body: string, n: nat)
    requires var lines := RawLines(body);
             && n <= |lines| && (forall i | 0 <= i < n :: |lines[i]| < MAX_LINE)
             && (n < |lines| ==> |lines[n]| >= MAX_LINE)
    ensures ExtractTo(RawLines(body), n) == Extract(body)
  {
    ReadableIsPrefix(RawLines(body), n);
  }

  method AppendData(result: string, data: string) returns (result': string)
    ensures result' == Appended(result, data)
  {
    result' := result;
    if data != "" {
      if |result'| > 0 {
        result' := result' + "\n";
      }
      result' := result' + data;
    }
  }

  method ExtractSSEData(body: string) returns (result: string)
    ensures result == Extract(body)
  {
    hide *;
    result := "";
    var lines := RawLines(body);
    NoLine(lines);
    var i := 0;
    while i < |lines| && |lines[i]| < MAX_LINE
      invariant 0 <= i <= |lines|
      invariant forall j | 0 <= j < i :: |lines[j]| < MAX_LINE
      invariant result == ExtractTo(lines, i)
    {
      OneMoreLine(lines, i);
      result := AppendData(result, LineData(lines[i]));
      i := i + 1;
    }
    AllReadable(body, i);
  }

  lemma DatasSnoc(lines: seq<string>, i: nat)
    requires i < |lines|
    ensures Datas(lines[..i + 1]) == Datas(lines[..i]) + DataPart(lines[i])
    ensures LineData(lines[i]) == "" ==> Datas(lines[..i + 1]) == Datas(lines[..i])
  {
    assert lines[..i + 1][..i] == lines[..i];
  }

  // ----- what is read back

  /** The non-blank lines, trimmed. */
  function Trimmed(lines: seq<string>): seq<string> {
    if lines == [] then []
    else
      var text := Trim(lines[|lines| - 1]);
      Trimmed(lines[..|lines| - 1]) + if text == "" then [] else [text]
  }

  lemma {:induction false} TrimLeftAppend(s: string, c: char)
    requires IsSpace(c)
    ensures TrimLeft(s + [c]) == if TrimLeft(s) == [] then [] else TrimLeft(s) + [c]
  {
    if s == [] {
      assert s + [c] == [c];
    } else if IsSpace(s[0]) {
      TrimLeftAppend(s[1..], c);
      assert (s + [c])[1..] == s[1..] + [c];
    }
  }

  lemma TrimDropsTrailing(s: string, c: char)
    requires IsSpace(c)
    ensures Trim(s + [c]) == Trim(s)
  {
    TrimLeftAppend(s, c);
    var t := TrimLeft(s);
    if t != [] { assert (t + [c])[..|t|] == t; }
  }

  lemma TrimDropsLeading(s: string, c: char)
    requires IsSpace(c)
    ensures Trim([c] + s) == Trim(s)
  {
    assert ([c] + s)[1..] == s;
  }

  lemma TrimDropsCR(line: string)
    ensures Trim(DropCR(line)) == Trim(line)
  {
    if line != [] && line[|line| - 1] == '\r' {
      TrimDropsTrailing(line[..|line| - 1], '\r');
      assert line == line[..|line| - 1] + ['\r'];
    }
  }

  lemma DataLineIsRead(line: string)
    ensures LineData("data: " + line) == Trim(line)
  {
    var text := DropCR("data: " + line);
    assert text == "data: " + DropCR(line);
    assert TrimPrefix(text, "data:") == [' '] + DropCR(line);
    TrimDropsLeading(DropCR(line), ' ');
    TrimDropsCR(line);
  }

  lemma OtherLinesAreSkipped(line: string)
    requires line == [] || line[0] != 'd'
    ensures LineData(line) == ""
  {}

  lemma DatasOfSnoc(lines: seq<string>, line: string)
    ensures Datas(lines + [line]) == Datas(lines) + DataPart(line)
  {
    assert (lines + [line])[..|lines|] == lines;
  }

  lemma SplitLast<T>(a: seq<T>, b: seq<T>)
    requires b != []
    ensures var init, last := b[..|b| - 1], b[|b| - 1];
            b == init + [last] && a + b == (a + init) + [last]
  {}

  lemma {:induction false} DatasConcat(a: seq<string>, b: seq<string>)
    ensures Datas(a + b) == Datas(a) + Datas(b)
  {
    if b == [] {
      EmptyEnds(a);
      EmptyEnds(Datas(a));
    } else {
      var init, last := b[..|b| - 1], b[|b| - 1];
      DatasConcat(a, init);
      hide *;
      SplitLast(a, b);
      DatasOfSnoc(a + init, last);
      DatasOfSnoc(init, last);
      Associate(Datas(a), Datas(init), DataPart(last));
    }
  }

  lemma {:induction false} DatasOfDataLines(lines: seq<string>)
    ensures Datas(DataLines(lines)) == Trimmed(lines)
  {
    if lines != [] {
      var init, last := lines[..|lines| - 1], lines[|lines| - 1];
      DatasOfDataLines(init);
      DataLineIsRead(last);
      assert DataLines(lines)[..|DataLines(lines)| - 1] == DataLines(init);
      hide LineData, Trim;
    }
  }

  lemma DatasOfOne(line: string)
    ensures Datas([line]) == DataPart(line)
  {
    assert [line][..0] == [];
  }

  /** The lines a reader takes from a message: those of its payload, after any that
      an event name spells out beyond its first line. */
  function MessageDatas(m: Message): seq<string> {
    match m
    case Event(name, data) =>
      (if Trim(name) != "" then Datas(Split(name)[1..]) else []) + Trimmed(Split(data))
    case Keepalive => []
  }

  lemma MessageIsRead(m: Message)
    ensures Datas(MessageLines(m)) == MessageDatas(m)
  {
    OtherLinesAreSkipped("");
    DatasOfOne("");
    match m
    case Keepalive => {
      OtherLinesAreSkipped(": keepalive");
      DatasOfOne(": keepalive");
      hide Datas, LineData;
      DatasConcat([": keepalive"], [""]);
      assert [": keepalive"] + [""] == [": keepalive", ""];
    }
    case Event(name, data) => {
      var first := "event: " + Split(name)[0];
      OtherLinesAreSkipped(first);
      DatasOfOne(first);
      DatasOfDataLines(Split(data));
      hide Datas, LineData, Split, DataLines, Trim, Trimmed;
      DatasConcat([first], Split(name)[1..]);
      var head := if Trim(name) != "" then NameLines(name) else [];
      DatasConcat(head, DataLines(Split(data)));
      DatasConcat(head + DataLines(Split(data)), [""]);
      NoDatas();
      EmptyEnds(Datas(Split(name)[1..]));
      EmptyEnds(Datas(head + DataLines(Split(data))));
    }
  }

  lemma NoDatas()
    ensures Datas([]) == []
  {}

  lemma EmptyEnds<T>(a: seq<T>)
    ensures a + [] == a && [] + a == a
  {}

  function StreamDatas(messages: seq<Message>): seq<string> {
    if messages == [] then []
    else StreamDatas(messages[..|messages| - 1]) + MessageDatas(messages[|messages| - 1])
  }

  lemma {:induction false} StreamIsRead(messages: seq<Message>)
    ensures Datas(StreamLines(messages)) == StreamDatas(messages)
  {
    if messages != [] {
      var init, last := messages[..|messages| - 1], messages[|messages| - 1];
      StreamIsRead(init);
      MessageIsRead(last);
      hide Datas, MessageDatas, MessageLines;
      DatasConcat(StreamLines(init), MessageLines(last));
    }
  }

  ghost predicate FitsTheBuffer(messages: seq<Message>) {
    forall i | 0 <= i < |StreamLines(messages)| :: |StreamLines(messages)[i]| < MAX_LINE
  }

  /** Whatever the messages, the reader sees their lines up to the first that is too long. */
  lemma ExtractReadsTheLines(messages: seq<Message>)
    ensures Extract(Stream(messages)) == Joined(Datas(Readable(StreamLines(messages))))
  {
    CutStream(messages);
    EmptyEnds(StreamLines(messages));
  }

  lemma ExtractReadsTheStream(messages: seq<Message>)
    requires FitsTheBuffer(messages)
    ensures Extract(Stream(messages)) == Joined(StreamDatas(messages))
  {
    ExtractReadsTheLines(messages);
    var lines := StreamLines(messages);
    ReadableIsPrefix(lines, |lines|);
    assert lines[..|lines|] == lines;
    StreamIsRead(messages);
  }

  // ----- event names without newlines

  function PayloadLines(messages: seq<Message>): seq<string> {
    if messages == [] then []
    else
      var m := messages[|messages| - 1];
      PayloadLines(messages[..|messages| - 1]) + if m.Event? then Trimmed(Split(m.data)) else []
  }

  predicate PlainNames(messages: seq<Message>) {
    forall i | 0 <= i < |messages| :: messages[i].Event? ==> OneLine(messages[i].name)
  }

  lemma PlainNameAddsNothing(m: Message)
    requires m.Event? ==> OneLine(m.name)
    ensures MessageDatas(m) == if m.Event? then Trimmed(Split(m.data)) else []
  {
    if m.Event? {
      CutOneLine([], m.name);
      assert [] + m.name == m.name;
      assert Split(m.name)[1..] == [];
      NoDatas();
      EmptyEnds(Trimmed(Split(m.data)));
    }
  }

  lemma {:induction false} PlainStreamDatas(messages: seq<Message>)
    requires PlainNames(messages)
    ensures StreamDatas(messages) == PayloadLines(messages)
  {
    if messages != [] {
      PlainStreamDatas(messages[..|messages| - 1]);
      PlainNameAddsNothing(messages[|messages| - 1]);
    }
  }

  /** The extract of a stream is the trimmed non-blank lines of all payloads. */
  lemma ExtractIsThePayloads(messages: seq<Message>)
    requires PlainNames(messages) && FitsTheBuffer(messages)
    ensures Extract(Stream(messages)) == Joined(PayloadLines(messages))
  {
    ExtractReadsTheStream(messages);
    PlainStreamDatas(messages);
  }

  // ----- round trips

  lemma SplitOneLine(s: string)
    requires OneLine(s)
    ensures Cut(s) == ([], s) && Split(s) == [s]
  {
    CutOneLine([], s);
    EmptyEnds(s);
  }

  lemma SplitAtNewline(a: string, line: string)
    requires OneLine(line)
    ensures Split(a + "\n" + line) == Split(a) + [line]
  {
    CutSnoc(a, '\n');
    CutAfterNewline(a + "\n", line);
    SplitOneLine(line);
    EmptyEnds(Split(a));
  }

  /** Joining one-line parts and splitting again gives the parts back ... */
  lemma {:induction false} SplitOfJoined(parts: seq<string>)
    requires parts != [] && forall i | 0 <= i < |parts| :: OneLine(parts[i])
    ensures Split(Joined(parts)) == parts
  {
    if |parts| == 1 {
      SplitOneLine(parts[0]);
    } else {
      var init, last := parts[..|parts| - 1], parts[|parts| - 1];
      SplitOfJoined(init);
      SplitAtNewline(Joined(init), last);
      SplitLast(init, parts);
    }
  }

  lemma JoinedAppend(parts: seq<string>, x: string)
    requires parts != []
    ensures Joined(parts + [x]) == Joined(parts) + "\n" + x
  {
    assert (parts + [x])[..|parts|] == parts;
  }

  lemma JoinedGrown(lines: seq<string>, open: string, c: char)
    ensures Joined(lines + [open + [c]]) == Joined(lines + [open]) + [c]
  {
    if lines == [] {
      EmptyEnds([open]);
      EmptyEnds([open + [c]]);
    } else {
      JoinedAppend(lines, open);
      JoinedAppend(lines, open + [c]);
      hide Joined;
      Associate(Joined(lines) + "\n", open, [c]);
    }
  }

  /** ... and splitting any text and joining again gives the text back. */
  lemma {:induction false} JoinedOfSplit(s: string)
    ensures Joined(Split(s)) == s
  {
    if s != [] {
      var s', c := s[..|s| - 1], s[|s| - 1];
      JoinedOfSplit(s');
      SplitLast([], s);
      CutSnoc(s', c);
      hide Cut, Joined;
      if c == '\n' {
        JoinedAppend(Split(s'), "");
        EmptyEnds(s' + "\n");
      } else {
        JoinedGrown(Cut(s').0, Cut(s').1, c);
      }
    }
  }

  lemma {:induction false} TrimLeftIsOneLine(s: string)
    requires OneLine(s)
    ensures OneLine(TrimLeft(s))
  {
    if s != [] && IsSpace(s[0]) { TrimLeftIsOneLine(s[1..]); }
  }

  lemma {:induction false} TrimRightIsOneLine(s: string)
    requires OneLine(s)
    ensures OneLine(TrimRight(s))
  {
    if s != [] && IsSpace(s[|s| - 1]) { TrimRightIsOneLine(s[..|s| - 1]); }
  }

  predicate CleanLine(line: string) {
    line != "" && Trim(line) == line && OneLine(line)
  }

  predicate Clean(lines: seq<string>) {
    forall i | 0 <= i < |lines| :: CleanLine(lines[i])
  }

  lemma TrimmedLineIsClean(line: string)
    requires OneLine(line) && Trim(line) != ""
    ensures CleanLine(Trim(line))
  {
    TrimTwice(line);
    TrimLeftIsOneLine(line);
    TrimRightIsOneLine(TrimLeft(line));
  }

  lemma {:induction false} TrimmedIsClean(lines: seq<string>)
    requires forall i | 0 <= i < |lines| :: OneLine(lines[i])
    ensures Clean(Trimmed(lines))
  {
    if lines != [] {
      var init, last := lines[..|lines| - 1], lines[|lines| - 1];
      TrimmedIsClean(init);
      if Trim(last) != "" { TrimmedLineIsClean(last); }
      hide Trim, CleanLine;
    }
  }

  lemma {:induction false} TrimmedOfClean(lines: seq<string>)
    requires Clean(lines)
    ensures Trimmed(lines) == lines
  {
    if lines != [] {
      TrimmedOfClean(lines[..|lines| - 1]);
      SplitLast([], lines);
      hide Trim, OneLine;
    }
  }

  /** One event comes back unchanged exactly when its payload is empty or made of
      trimmed, non-blank lines. */
  lemma EventRoundTrip(name: string, data: string)
    requires OneLine(name) && FitsTheBuffer([Event(name, data)])
    ensures Extract(Stream([Event(name, data)])) == data <==> data == "" || Clean(Split(data))
  {
    hide Trim, Cut, Trimmed, Extract, Stream, PayloadLines, FitsTheBuffer;
    var m := Event(name, data);
    ExtractIsThePayloads([m]);
    OneEvent(m);
    var lines := Split(data);
    CutPiecesAreLines(data);
    TrimmedIsClean(lines);
    if data == "" {
      EmptyPayload();
    } else if Clean(lines) {
      TrimmedOfClean(lines);
      JoinedOfSplit(data);
    } else if Trimmed(lines) != [] {
      SplitOfJoined(Trimmed(lines));
    }
  }

  lemma EmptyPayload()
    ensures Trimmed(Split("")) == []
  {
    assert Trimmed([""]) == [];
  }

  lemma OneEvent(m: Message)
    requires m.Event?
    ensures PayloadLines([m]) == Trimmed(Split(m.data))
  {
    assert [m][..0] == [];
    EmptyEnds(Trimmed(Split(m.data)));
  }

  function Payloads(messages: seq<Message>): seq<string> {
    if messages == [] then []
    else
      var m := messages[|messages| - 1];
      Payloads(messages[..|messages| - 1]) + if m.Event? then [m.data] else []
  }

  lemma {:induction false} CleanPayloadLines(messages: seq<Message>)
    requires Clean(Payloads(messages))
    ensures PayloadLines(messages) == Payloads(messages)
  {
    if messages != [] {
      var init, m := messages[..|messages| - 1], messages[|messages| - 1];
      var before := Payloads(init);
      assert forall i | 0 <= i < |before| :: before[i] == Payloads(messages)[i];
      CleanPayloadLines(init);
      if m.Event? {
        assert Payloads(messages)[|before|] == m.data;
        SplitOneLine(m.data);
        TrimmedOfClean([m.data]);
      }
    }
  }

  /** A stream of one-line trimmed payloads is read back payload by payload. */
  lemma PayloadsRoundTrip(messages: seq<Message>)
    requires PlainNames(messages) && FitsTheBuffer(messages)
    requires Clean(Payloads(messages)) && Payloads(messages) != []
    ensures Split(Extract(Stream(messages))) == Payloads(messages)
  {
    ExtractIsThePayloads(messages);
    CleanPayloadLines(messages);
    SplitOfJoined(Payloads(messages));
  }
}
