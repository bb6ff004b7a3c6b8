/** An SMTP session: commands, DATA mode with dot transparency (section 4.5.2 of RFC 5321), and recording. */
module Smtp {
  import opened Strings

  // ---------- One session ----------

  /** A processed message: its envelope and the text collected in DATA mode. */
  datatype Message = Message(from: string, to: seq<string>, text: string)

  datatype Session = Session(mailFrom: string, rcptTo: seq<string>, dataMode: bool, buffer: string, closed: bool)

  const FRESH := Session("", [], false, "", false)

  function Upper(c: char): char {
    if 'a' <= c <= 'z' then 'A' + (c - 'a') else c
  }

  /** The first four characters of a line, in upper case. */
  function Command(line: string): string {
    seq(if |line| >= 4 then 4 else |line|, i requires 0 <= i < |line| => Upper(line[i]))
  }

  const SPACES := {' ', '\t', '\n', '\r', '\U{000B}', '\U{000C}', '\U{0085}', '\U{00A0}'}

  /** The address between the first angle brackets, or else what follows the first colon. */
  function ExtractAddress(line: string): string {
    var start, end := IndexOf(line, '<'), IndexOf(line, '>');
    if start < end < |line| then line[start + 1..end]
    else
      var colon := IndexOf(line, ':');
      if colon < |line| then Trim(line[colon + 1..], SPACES) else ""
  }

  function Unstuff(line: string): string {
    if line != "" && line[0] == '.' then line[1..] else line
  }

  const CRLF := "\r\n"

  /** What one line does to the session, and the message it completes, if any. */
  function Handle(s: Session, line: string): (Session, seq<Message>) {
    if s.closed then (s, [])
    else if s.dataMode then
      if line == "." then (FRESH, [Message(s.mailFrom, s.rcptTo, s.buffer)])
      else (s.(buffer := s.buffer + (Unstuff(line) + CRLF)), [])
    else
      var cmd := Command(line);
      if cmd == "MAIL" then (s.(mailFrom := ExtractAddress(line)), [])
      else if cmd == "RCPT" then
        var addr := ExtractAddress(line);
        (if addr != "" then s.(rcptTo := s.rcptTo + [addr]) else s, [])
      else if cmd == "DATA" then
        (if s.mailFrom == "" || s.rcptTo == [] then s else s.(dataMode := true), [])
      else if cmd == "RSET" then (FRESH, [])
      else if cmd == "QUIT" then (s.(closed := true), [])
      else (s, [])
  }

  /** The session after the lines. */
  function State(s: Session, lines: seq<string>): Session {
    if lines == [] then s else Handle(State(s, lines[..|lines| - 1]), lines[|lines| - 1]).0
  }

  /** The messages the lines complete. */
  function Output(s: Session, lines: seq<string>): seq<Message> {
    if lines == [] then []
    else Output(s, lines[..|lines| - 1]) + Handle(State(s, lines[..|lines| - 1]), lines[|lines| - 1]).1
  }

  function After(lines: seq<string>): Session {
    State(FRESH, lines)
  }

  function Processed(lines: seq<string>): seq<Message> {
    Output(FRESH, lines)
  }

  lemma {:induction false} StateConcat(s: Session, a: seq<string>, b: seq<string>)
    ensures State(s, a + b) == State(State(s, a), b)
  {
    hide Handle;
    if b == [] {
      assert a + b == a;
    } else {
      var n := |b| - 1;
      assert (a + b)[..|a + b| - 1] == a + b[..n] && (a + b)[|a + b| - 1] == b[n];
      StateConcat(s, a, b[..n]);
    }
  }

  lemma {:induction false} RunConcat(s: Session, a: seq<string>, b: seq<string>)
    ensures State(s, a + b) == State(State(s, a), b)
    ensures Output(s, a + b) == Output(s, a) + Output(State(s, a), b)
  {
    hide Handle, State;
    StateConcat(s, a, b);
    if b == [] {
      assert a + b == a;
    } else {
      var n := |b| - 1;
      assert (a + b)[..|a + b| - 1] == a + b[..n] && (a + b)[|a + b| - 1] == b[n];
      RunConcat(s, a, b[..n]);
      var last := Handle(State(s, a + b[..n]), b[n]).1;
      assert Output(s, a) + Output(State(s, a), b[..n]) + last == Output(s, a) + (Output(State(s, a), b[..n]) + last);
    }
  }

  lemma RunOne(s: Session, line: string)
    ensures State(s, [line]) == Handle(s, line).0
    ensures Output(s, [line]) == Handle(s, line).1
  {
    hide Handle;
    assert [line][..0] == [];
  }

  lemma RunNone(s: Session)
    ensures State(s, []) == s && Output(s, []) == []
  {
  }

  lemma RunLast(s: Session, lines: seq<string>)
    requires lines != []
    ensures var n := |lines| - 1;
            State(s, lines) == Handle(State(s, lines[..n]), lines[n]).0 &&
            Output(s, lines) == Output(s, lines[..n]) + Handle(State(s, lines[..n]), lines[n]).1
  {
    hide Handle;
  }

  lemma RunHead(s: Session, line: string, rest: seq<string>)
    ensures Output(s, [line] + rest) == Handle(s, line).1 + Output(Handle(s, line).0, rest)
  {
    hide Handle, State, Output;
    RunConcat(s, [line], rest);
    RunOne(s, line);
  }

  lemma {:induction false} ClosedIsSilent(s: Session, lines: seq<string>)
    requires s.closed
    ensures State(s, lines) == s && Output(s, lines) == []
  {
    if lines != [] {
      ClosedIsSilent(s, lines[..|lines| - 1]);
    }
  }

  // ---------- Reading lines ----------

  function Chomp(s: string): string {
    TrimRight(s, {'\r', '\n'})
  }

  /** The complete lines of a stream, without their line ends; an unfinished last line is not read. */
  function ReadLines(stream: string): seq<string>
    decreases |stream|
  {
    var i := IndexOf(stream, '\n');
    if i == |stream| then [] else [Chomp(stream[..i])] + ReadLines(stream[i + 1..])
  }

  // ---------- Safety, for every sequence of lines ----------

  ghost predicate NonEmpty(addresses: seq<string>) {
    forall i :: 0 <= i < |addresses| ==> addresses[i] != ""
  }

  /** Nothing is buffered outside DATA mode, and DATA mode has a sender and recipients. */
  ghost predicate SafeSession(s: Session) {
    && (!s.dataMode ==> s.buffer == "")
    && (s.dataMode ==> s.mailFrom != "" && s.rcptTo != [])
    && NonEmpty(s.rcptTo)
  }

  ghost predicate SafeMessage(m: Message) {
    m.from != "" && m.to != [] && NonEmpty(m.to)
  }

  lemma HandleIsSafe(s: Session, line: string)
    requires SafeSession(s)
    ensures SafeSession(Handle(s, line).0)
    ensures forall m :: m in Handle(s, line).1 ==> SafeMessage(m)
  {
  }

  lemma {:induction false} SessionsAreSafe(lines: seq<string>)
    ensures SafeSession(After(lines))
    ensures forall m :: m in Processed(lines) ==> SafeMessage(m)
  {
    if lines != [] {
      hide Handle;
      SessionsAreSafe(lines[..|lines| - 1]);
      HandleIsSafe(After(lines[..|lines| - 1]), lines[|lines| - 1]);
    }
  }

  /** The text that data lines add up to. */
  function Body(lines: seq<string>): string {
    if lines == [] then "" else Body(lines[..|lines| - 1]) + (Unstuff(lines[|lines| - 1]) + CRLF)
  }

  /** The number of lines before the data of the message being received. */
  function DataStart(lines: seq<string>): (n: nat)
    ensures n <= |lines|
  {
    if lines == [] || !After(lines[..|lines| - 1]).dataMode then |lines| else DataStart(lines[..|lines| - 1])
  }

  /** A session enters DATA mode only by the DATA command, and stays in it only by a data line. */
  lemma DataModeStep(s: Session, line: string)
    requires SafeSession(s) && Handle(s, line).0.dataMode && !s.closed
    ensures !s.dataMode ==> Command(line) == "DATA" && Handle(s, line).0.buffer == ""
    ensures s.dataMode ==> line != "." && Handle(s, line).0.buffer == s.buffer + (Unstuff(line) + CRLF)
  {
  }

  lemma {:induction false} ClosedIsNotData(lines: seq<string>)
    ensures After(lines).closed ==> !After(lines).dataMode
  {
    if lines != [] {
      ClosedIsNotData(lines[..|lines| - 1]);
    }
  }

  /** In DATA mode the buffer holds the lines received since the mode was entered, and no other. */
  lemma {:induction false} BufferIsThisMessage(lines: seq<string>)
    requires After(lines).dataMode
    ensures After(lines).buffer == Body(lines[DataStart(lines)..])
    ensures "." !in lines[DataStart(lines)..]
    ensures DataStart(lines) > 0 && Command(lines[DataStart(lines) - 1]) == "DATA"
  {
    hide Handle, Command, Unstuff;
    var n := |lines| - 1;
    var before := lines[..n];
    SessionsAreSafe(before);
    ClosedIsNotData(before);
    ClosedIsNotData(lines);
    if After(before).closed {
      StaysClosed(After(before), lines[n]);
    }
    DataModeStep(After(before), lines[n]);
    if After(before).dataMode {
      BufferIsThisMessage(before);
      var k := DataStart(before);
      assert lines[k..] == before[k..] + [lines[n]];
      assert lines[k..][..|lines[k..]| - 1] == before[k..];
    } else {
      assert lines[DataStart(lines)..] == [];
    }
  }

  lemma StaysClosed(s: Session, line: string)
    requires s.closed
    ensures Handle(s, line) == (s, [])
  {
  }

  /** A message is completed exactly by the line that ends its data, and carries exactly that data. */
  lemma MessageIsItsData(lines: seq<string>, line: string)
    ensures Processed(lines + [line]) == Processed(lines) +
              if After(lines).dataMode && line == "." then
                [Message(After(lines).mailFrom, After(lines).rcptTo, Body(lines[DataStart(lines)..]))]
              else []
    ensures After(lines).dataMode && line == "." ==> After(lines + [line]) == FRESH
  {
    RunConcat(FRESH, lines, [line]);
    RunOne(After(lines), line);
    ClosedIsNotData(lines);
    if After(lines).dataMode {
      BufferIsThisMessage(lines);
    }
  }
}
