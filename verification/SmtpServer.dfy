/** The connections of an SMTP imposter and the record they share. */
module SmtpServer {
  import opened Strings
  import opened Smtp

  // ---------- The connection loop ----------

  /** What the stream amounts to is what has been processed and what the session makes of the rest. */
  ghost predicate Progress(stream: string, done: seq<Message>, s: Session, rest: string) {
    Processed(ReadLines(stream)) == done + Output(s, ReadLines(rest))
  }

  lemma ReadNext(rest: string)
    requires IndexOf(rest, '\n') < |rest|
    ensures var i := IndexOf(rest, '\n'); ReadLines(rest) == [Chomp(rest[..i])] + ReadLines(rest[i + 1..])
  {
    hide Chomp;
  }

  lemma ProgressStep(stream: string, done: seq<Message>, s: Session, rest: string, line: string, more: string)
    requires Progress(stream, done, s, rest) && ReadLines(rest) == [line] + ReadLines(more)
    ensures Progress(stream, done + Handle(s, line).1, Handle(s, line).0, more)
  {
    hide Handle, State, Output, ReadLines, Processed;
    RunHead(s, line, ReadLines(more));
    var out, later := Handle(s, line).1, Output(Handle(s, line).0, ReadLines(more));
    assert (done + out) + later == done + (out + later);
  }

  /** Nothing more is processed when the session is closed or the stream has no further line. */
  lemma ProgressEnd(stream: string, done: seq<Message>, s: Session, rest: string)
    requires Progress(stream, done, s, rest) && (s.closed || IndexOf(rest, '\n') == |rest|)
    ensures Processed(ReadLines(stream)) == done
  {
    hide Handle, Output;
    if s.closed {
      ClosedIsSilent(s, ReadLines(rest));
    } else {
      RunNone(s);
    }
  }

  /** The part of an imposter that the connections of an SMTP server share. */
  class Imposter {
    const recordRequests: bool
    var requests: seq<Message>
    var numberOfRequests: nat

    constructor (recordRequests: bool)
      ensures this.recordRequests == recordRequests && requests == [] && numberOfRequests == 0
    {
      this.recordRequests := recordRequests;
      requests, numberOfRequests := [], 0;
    }

    /** Records a message if asked to, and counts it. */
    method Process(m: Message)
      modifies this
      ensures requests == old(requests) + if recordRequests then [m] else []
      ensures numberOfRequests == old(numberOfRequests) + 1
    {
      if recordRequests {
        requests := requests + [m];
      }
      numberOfRequests := numberOfRequests + 1;
    }

    /** Reads lines until the stream ends or the client quits. */
    method HandleConnection(stream: string)
      modifies this
      ensures var done := Processed(ReadLines(stream));
              requests == old(requests) + (if recordRequests then done else []) &&
              numberOfRequests == old(numberOfRequests) + |done|
    {
      var mailFrom, rcptTo, dataMode, dataBuffer := "", [], false, "";
      var rest := stream;
      ghost var done := [];
      assert Progress(stream, done, FRESH, rest);
      hide State, Output, ReadLines, Processed, Progress, Command, ExtractAddress, Unstuff, IndexOf, Chomp;
      while true
        invariant Progress(stream, done, Session(mailFrom, rcptTo, dataMode, dataBuffer, false), rest)
        invariant requests == old(requests) + if recordRequests then done else []
        invariant numberOfRequests == old(numberOfRequests) + |done|
        decreases |rest|
      {
        var i := IndexOf(rest, '\n');
        if i == |rest| {
          ProgressEnd(stream, done, Session(mailFrom, rcptTo, dataMode, dataBuffer, false), rest);
          return;
        }
        var line := Chomp(rest[..i]);
        ReadNext(rest);
        ProgressStep(stream, done, Session(mailFrom, rcptTo, dataMode, dataBuffer, false), rest, line, rest[i + 1..]);
        rest := rest[i + 1..];
        if dataMode {
          if line == "." {
            dataMode := false;
            var m := Message(mailFrom, rcptTo, dataBuffer);
            Process(m);
            assert old(requests) + (done + [m]) == (old(requests) + done) + [m];
            done := done + [m];
            mailFrom, rcptTo, dataBuffer := "", [], "";
          } else {
            assert done + [] == done;
            dataBuffer := Collect(dataBuffer, line);
          }
        } else {
          var quit;
          assert done + [] == done;
          mailFrom, rcptTo, dataMode, dataBuffer, quit := HandleCommand(line, mailFrom, rcptTo, dataBuffer);
          if quit {
            ProgressEnd(stream, done, Session(mailFrom, rcptTo, dataMode, dataBuffer, true), rest);
            return;
          }
        }
      }
    }

    /** A data line goes to the buffer without its escaping dot. */
    method Collect(buffer: string, line: string) returns (buffer': string)
      ensures buffer' == buffer + (Unstuff(line) + CRLF)
    {
      var text := line;
      if line != "" && line[0] == '.' {
        text := line[1..];
      }
      buffer' := buffer + (text + CRLF);
    }

    /** The command switch. */
    method HandleCommand(line: string, mailFrom: string, rcptTo: seq<string>, dataBuffer: string)
      returns (mailFrom': string, rcptTo': seq<string>, dataMode': bool, dataBuffer': string, quit: bool)
      ensures Handle(Session(mailFrom, rcptTo, false, dataBuffer, false), line) ==
              (Session(mailFrom', rcptTo', dataMode', dataBuffer', quit), [])
    {
      mailFrom', rcptTo', dataMode', dataBuffer', quit := mailFrom, rcptTo, false, dataBuffer, false;
      var cmd := Command(line);
      if cmd == "MAIL" {
        mailFrom' := ExtractAddress(line);
      } else if cmd == "RCPT" {
        var addr := ExtractAddress(line);
        if addr != "" {
          rcptTo' := rcptTo + [addr];
        }
      } else if cmd == "DATA" {
        if mailFrom != "" && rcptTo != [] {
          dataMode' := true;
        }
      } else if cmd == "RSET" {
        mailFrom', rcptTo', dataBuffer' := "", [], "";
      } else if cmd == "QUIT" {
        quit := true;
      }
    }
  }

  // ---------- Many connections ----------

  /** One line arriving on one connection. */
  datatype Event = Event(conn: nat, line: string)

  /** The sessions in progress and the messages recorded, with the connection each came from. */
  datatype Server = Server(sessions: map<nat, Session>, recorded: seq<(nat, Message)>)

  function SessionOf(v: Server, conn: nat): Session {
    if conn in v.sessions then v.sessions[conn] else FRESH
  }

  function Accept(v: Server, e: Event): Server {
    var (s, out) := Handle(SessionOf(v, e.conn), e.line);
    Server(v.sessions[e.conn := s], v.recorded + seq(|out|, i requires 0 <= i < |out| => (e.conn, out[i])))
  }

  /** Lines of all connections, in the order in which they happen to be handled. */
  function Serve(events: seq<Event>): Server {
    if events == [] then Server(map[], []) else Accept(Serve(events[..|events| - 1]), events[|events| - 1])
  }

  function LinesOf(events: seq<Event>, conn: nat): seq<string> {
    if events == [] then []
    else
      var e := events[|events| - 1];
      LinesOf(events[..|events| - 1], conn) + if e.conn == conn then [e.line] else []
  }

  function RecordedFrom(recorded: seq<(nat, Message)>, conn: nat): seq<Message> {
    if recorded == [] then []
    else
      var last := recorded[|recorded| - 1];
      RecordedFrom(recorded[..|recorded| - 1], conn) + if last.0 == conn then [last.1] else []
  }

  lemma {:induction false} RecordedFromConcat(a: seq<(nat, Message)>, b: seq<(nat, Message)>, conn: nat)
    ensures RecordedFrom(a + b, conn) == RecordedFrom(a, conn) + RecordedFrom(b, conn)
  {
    if b == [] {
      assert a + b == a;
    } else {
      var n := |b| - 1;
      assert (a + b)[..|a + b| - 1] == a + b[..n] && (a + b)[|a + b| - 1] == b[n];
      RecordedFromConcat(a, b[..n], conn);
    }
  }

  lemma {:induction false} RecordedFromOne(out: seq<Message>, from: nat, conn: nat)
    ensures RecordedFrom(seq(|out|, i requires 0 <= i < |out| => (from, out[i])), conn) ==
            if from == conn then out else []
  {
    if out != [] {
      var n := |out| - 1;
      var tagged := seq(|out|, i requires 0 <= i < |out| => (from, out[i]));
      assert tagged[..n] == seq(|out[..n]|, i requires 0 <= i < |out[..n]| => (from, out[..n][i]));
      RecordedFromOne(out[..n], from, conn);
    }
  }

  lemma AcceptOne(v: Server, e: Event, conn: nat)
    ensures SessionOf(Accept(v, e), conn) ==
            if e.conn == conn then Handle(SessionOf(v, conn), e.line).0 else SessionOf(v, conn)
    ensures RecordedFrom(Accept(v, e).recorded, conn) ==
            RecordedFrom(v.recorded, conn) + if e.conn == conn then Handle(SessionOf(v, conn), e.line).1 else []
  {
    hide Handle;
    var out := Handle(SessionOf(v, e.conn), e.line).1;
    RecordedFromConcat(v.recorded, seq(|out|, i requires 0 <= i < |out| => (e.conn, out[i])), conn);
    RecordedFromOne(out, e.conn, conn);
  }

  /** However connections interleave, each one sees its own session only, and its part of
      the record is what it would be alone. */
  lemma {:induction false} ConnectionsAreSeparate(events: seq<Event>, conn: nat)
    ensures SessionOf(Serve(events), conn) == After(LinesOf(events, conn))
    ensures RecordedFrom(Serve(events).recorded, conn) == Processed(LinesOf(events, conn))
  {
    hide Handle, State, Output;
    if events == [] {
      RunNone(FRESH);
    } else {
      var n := |events| - 1;
      var lines, e := LinesOf(events[..n], conn), events[n];
      ConnectionsAreSeparate(events[..n], conn);
      AcceptOne(Serve(events[..n]), e, conn);
      if e.conn == conn {
        RunConcat(FRESH, lines, [e.line]);
        RunOne(After(lines), e.line);
      } else {
        assert lines + [] == lines && Processed(lines) + [] == Processed(lines);
      }
    }
  }

  /** Every message any connection gets recorded has a sender and at least one recipient. */
  lemma {:induction false} RecordIsSafe(events: seq<Event>)
    ensures forall r :: r in Serve(events).recorded ==> SafeMessage(r.1)
  {
    if events != [] {
      var n := |events| - 1;
      RecordIsSafe(events[..n]);
      ConnectionsAreSeparate(events[..n], events[n].conn);
      SessionsAreSafe(LinesOf(events[..n], events[n].conn));
      HandleIsSafe(SessionOf(Serve(events[..n]), events[n].conn), events[n].line);
    }
  }
}
