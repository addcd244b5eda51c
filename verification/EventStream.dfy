/**
 * Server-sent events: frames as worker_model_proxy.py writes them, and the interpretation of section 9.2 of the
 * WHATWG HTML standard as a client reads them. Text stands for its UTF-8 bytes: the frames written are ASCII.
 */
module EventStream {
  import opened Common

  const LF: char := '\n'
  const CR: char := '\r'

  /** A frame to write; without a name it is a plain message. */
  datatype Frame = Frame(name: Option<string>, data: string)

  function Written(f: Frame): string {
    (if f.name.Some? then "event" + ": " + f.name.value + "\n" else "") + "data" + ": " + f.data + "\n" + "\n"
  }

  function Stream(frames: seq<Frame>): string {
    if frames == [] then "" else Written(frames[0]) + Stream(frames[1..])
  }

  // ----- the client's interpretation -----

  datatype Event = Event(name: string, data: string)

  /** The complete lines of a stream, ended by CRLF, LF or CR; line holds the characters since the last end. */
  function Lines(raw: string, line: string): seq<string> {
    if raw == "" then []
    else if raw[0] == CR && |raw| > 1 && raw[1] == LF then [line] + Lines(raw[2..], "")
    else if raw[0] == LF || raw[0] == CR then [line] + Lines(raw[1..], "")
    else Lines(raw[1..], line + [raw[0]])
  }

  /** The part of a line before its first colon, and the part after it less one leading space. */
  function Field(line: string): (string, string) {
    if line == "" then ("", "")
    else if line[0] == ':' then ("", if |line| > 1 && line[1] == ' ' then line[2..] else line[1..])
    else
      var (name, value) := Field(line[1..]);
      ([line[0]] + name, value)
  }

  /** The buffers of the event under way, and the events dispatched so far. */
  datatype Parser = Parser(data: string, name: string, events: seq<Event>)

  const FRESH := Parser("", "", [])

  function Dispatched(p: Parser): Parser {
    if p.data == "" then Parser("", "", p.events)
    else Parser("", "", p.events + [Event(if p.name == "" then "message" else p.name, p.data[..|p.data| - 1])])
  }

  function Process(p: Parser, line: string): Parser {
    if line == "" then Dispatched(p)
    else
      var (name, value) := Field(line);
      if name == "event" then p.(name := value)
      else if name == "data" then p.(data := p.data + value + "\n")
      else p
  }

  function ProcessAll(p: Parser, lines: seq<string>): Parser
    decreases lines
  {
    if lines == [] then p else ProcessAll(Process(p, lines[0]), lines[1..])
  }

  function Interpret(raw: string): seq<Event> {
    ProcessAll(FRESH, Lines(raw, "")).events
  }

  // ----- writing and reading agree -----

  predicate OneLine(s: string) {
    LF !in s && CR !in s
  }

  predicate Plain(f: Frame) {
    OneLine(f.data) && (f.name.Some? ==> f.name.value != "" && OneLine(f.name.value))
  }

  function EventOf(f: Frame): Event {
    Event(if f.name.Some? then f.name.value else "message", f.data)
  }

  function EventsOf(frames: seq<Frame>): seq<Event> {
    seq(|frames|, i requires 0 <= i < |frames| => EventOf(frames[i]))
  }

  // ----- the client reads as the standard says -----

  /** Lines end with CR LF, LF or CR; what follows the last end is no line yet. */
  lemma LinesAre(a: string, rest: string)
    requires OneLine(a)
    ensures Lines(a, "") == []
    ensures Lines(a + [CR, LF] + rest, "") == [a] + Lines(rest, "")
    ensures Lines(a + [LF] + rest, "") == [a] + Lines(rest, "")
    ensures (|rest| > 0 ==> rest[0] != LF) ==> Lines(a + [CR] + rest, "") == [a] + Lines(rest, "")
  {
    assert [] + a == a && a + "" == a;
    LinesSkip(a, "", "");
    assert a + [CR, LF] + rest == a + ([CR, LF] + rest) && ([CR, LF] + rest)[2..] == rest;
    LinesSkip(a, [CR, LF] + rest, "");
    assert a + [LF] + rest == a + ([LF] + rest) && ([LF] + rest)[1..] == rest;
    LinesSkip(a, [LF] + rest, "");
    assert a + [CR] + rest == a + ([CR] + rest) && ([CR] + rest)[1..] == rest;
    LinesSkip(a, [CR] + rest, "");
  }

  lemma {:induction false} LinesSkip(a: string, rest: string, line: string)
    requires OneLine(a)
    ensures Lines(a + rest, line) == Lines(rest, line + a)
  {
    if a == "" {
      assert a + rest == rest && line + a == line;
    } else {
      assert a[0] in a && (a + rest)[0] == a[0] && (a + rest)[1..] == a[1..] + rest;
      assert forall c | c in a[1..] :: c in a;
      LinesSkip(a[1..], rest, line + [a[0]]);
      assert line + [a[0]] + a[1..] == line + a;
    }
  }

  /** A line's field is what stands before its first colon, its value what stands after it, less one leading space. */
  lemma {:induction false} FieldIs(name: string, rest: string)
    requires ':' !in name
    ensures Field(name) == (name, "")
    ensures Field(name + ": " + rest) == (name, rest)
    ensures (|rest| > 0 ==> rest[0] != ' ') ==> Field(name + ":" + rest) == (name, rest)
  {
    if name == "" {
      assert (": " + rest)[2..] == rest && (":" + rest)[1..] == rest;
      assert name + ": " + rest == ": " + rest && name + ":" + rest == ":" + rest;
    } else {
      assert name[0] in name && forall c | c in name[1..] :: c in name;
      FieldIs(name[1..], rest);
      assert (name + ": " + rest)[1..] == name[1..] + ": " + rest && (name + ":" + rest)[1..] == name[1..] + ":" + rest;
      assert name == [name[0]] + name[1..];
    }
  }

  /** A blank line dispatches the event under way, if it has data: all of it but its last line end, and "message" unnamed. */
  lemma DispatchIs(p: Parser)
    ensures Process(p, []) == Parser([], [], if |p.data| == 0 then p.events
                                             else p.events + [Event(if |p.name| == 0 then "message" else p.name, p.data[..|p.data| - 1])])
    ensures Interpret([]) == []
  {
  }

  lemma {:induction false} LinesSplit(a: string, rest: string, line: string)
    requires OneLine(a)
    ensures Lines(a + "\n" + rest, line) == [line + a] + Lines(rest, "")
  {
    var raw := a + "\n" + rest;
    if a == "" {
      assert raw == "\n" + rest && raw[1..] == rest && line + a == line;
    } else {
      assert raw[0] == a[0] && raw[1..] == a[1..] + "\n" + rest && a[0] in a;
      assert forall c | c in a[1..] :: c in a;
      LinesSplit(a[1..], rest, line + [a[0]]);
      assert line + [a[0]] + a[1..] == line + a;
    }
  }

  lemma {:induction false} FieldSplit(name: string, value: string)
    requires ':' !in name
    ensures Field(name + ": " + value) == (name, value)
  {
    var line := name + ": " + value;
    if name == "" {
      assert line[0] == ':' && line[1] == ' ' && line[2..] == value;
    } else {
      assert line[0] == name[0] && name[0] in name && line[1..] == name[1..] + ": " + value;
      assert forall c | c in name[1..] :: c in name;
      FieldSplit(name[1..], value);
      assert [name[0]] + name[1..] == name;
    }
  }

  lemma FieldLine(p: Parser, name: string, value: string, rest: string)
    requires ':' !in name && OneLine(name) && OneLine(value)
    ensures var line := name + ": " + value;
            line != "" && Field(line) == (name, value) && Lines(line + "\n" + rest, "") == [line] + Lines(rest, "")
  {
    FieldSplit(name, value);
    var line := name + ": " + value;
    assert OneLine(": ");
    assert |line| >= 2;
    LinesSplit(line, rest, "");
    assert "" + line == line;
  }

  lemma ProcessFirst(p: Parser, line: string, lines: seq<string>)
    ensures ProcessAll(p, [line] + lines) == ProcessAll(Process(p, line), lines)
  {
    assert ([line] + lines)[1..] == lines;
  }

  lemma WrittenReads(events: seq<Event>, f: Frame, rest: string)
    requires Plain(f)
    ensures ProcessAll(Parser("", "", events), Lines(Written(f) + rest, ""))
         == ProcessAll(Parser("", "", events + [EventOf(f)]), Lines(rest, ""))
  {
    hide Lines, Field, ProcessAll;
    var start := Parser("", "", events);
    var tail := "data" + ": " + f.data + "\n" + ("\n" + rest);
    var data := "data" + ": " + f.data;
    FieldLine(start, "data", f.data, "\n" + rest);
    LinesSplit("", rest, "");
    assert "" + "\n" + rest == "\n" + rest;
    assert "" + "\n" + rest == "\n" + rest && "" + "" == "";
    assert data + "\n" + ("\n" + rest) == tail;
    assert Lines(tail, "") == [data] + ([""] + Lines(rest, ""));
    var named := if f.name.Some? then start.(name := f.name.value) else start;
    if f.name.Some? {
      var line := "event" + ": " + f.name.value;
      FieldLine(start, "event", f.name.value, tail);
      assert Written(f) + rest == line + "\n" + tail;
      ProcessFirst(start, line, Lines(tail, ""));
    } else {
      assert Written(f) + rest == tail;
    }
    ProcessFirst(named, data, [""] + Lines(rest, ""));
    ProcessFirst(Process(named, data), "", Lines(rest, ""));
    assert ("" + f.data + "\n")[..|f.data|] == f.data;
  }

  lemma {:induction false} StreamReads(events: seq<Event>, frames: seq<Frame>)
    requires forall i | 0 <= i < |frames| :: Plain(frames[i])
    ensures ProcessAll(Parser("", "", events), Lines(Stream(frames), "")).events == events + EventsOf(frames)
    decreases frames
  {
    hide Plain;
    if frames == [] {
      assert events + EventsOf(frames) == events;
    } else {
      WrittenReads(events, frames[0], Stream(frames[1..]));
      StreamReads(events + [EventOf(frames[0])], frames[1..]);
      assert events + [EventOf(frames[0])] + EventsOf(frames[1..]) == events + EventsOf(frames);
    }
  }

  /** A client reads back exactly the frames written, in order, whatever their data. */
  lemma Interpreted(frames: seq<Frame>)
    requires forall i | 0 <= i < |frames| :: Plain(frames[i])
    ensures Interpret(Stream(frames)) == EventsOf(frames)
  {
    StreamReads([], frames);
    assert [] + EventsOf(frames) == EventsOf(frames);
  }
}
