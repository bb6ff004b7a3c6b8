/** What a client sends, and that the session reads it back: the whole-session round trip. */
module SmtpClient {
  import opened Strings
  import opened Smtp

  // ---------- Letters ----------

  /** A message as a client sends it: its envelope and the lines of its text. */
  datatype Letter = Letter(from: string, to: seq<string>, lines: seq<string>)

  predicate PlainAddress(a: string) {
    a != "" && '>' !in a
  }

  predicate CanSend(m: Letter) {
    PlainAddress(m.from) && m.to != [] && forall a :: a in m.to ==> PlainAddress(a)
  }

  function Stuff(line: string): string {
    if line != "" && line[0] == '.' then "." + line else line
  }

  function Stuffed(lines: seq<string>): seq<string> {
    seq(|lines|, i requires 0 <= i < |lines| => Stuff(lines[i]))
  }

  const MAIL_FROM := "MAIL FROM:"
  const RCPT_TO := "RCPT TO:"

  function Recipients(to: seq<string>): seq<string> {
    seq(|to|, i requires 0 <= i < |to| => RCPT_TO + ("<" + to[i] + ">"))
  }

  /** The lines a client sends for one message. */
  function SendLetter(m: Letter): seq<string> {
    [MAIL_FROM + ("<" + m.from + ">")] + (Recipients(m.to) + (["DATA"] + (Stuffed(m.lines) + ["."])))
  }

  function SendAll(letters: seq<Letter>): seq<string> {
    if letters == [] then [] else SendAll(letters[..|letters| - 1]) + SendLetter(letters[|letters| - 1])
  }

  function Text(lines: seq<string>): string {
    if lines == [] then "" else Text(lines[..|lines| - 1]) + (lines[|lines| - 1] + CRLF)
  }

  /** The message a letter is meant to become. */
  function Delivered(m: Letter): Message {
    Message(m.from, m.to, Text(m.lines))
  }

  function DeliveredAll(letters: seq<Letter>): seq<Message> {
    seq(|letters|, i requires 0 <= i < |letters| => Delivered(letters[i]))
  }

  /** An address in angle brackets is read back exactly when it does not close the brackets itself. */
  lemma BracketedAddress(prefix: string, a: string)
    requires '<' !in prefix && '>' !in prefix
    ensures ExtractAddress(prefix + ("<" + a + ">")) == a <==> '>' !in a
  {
    var line := prefix + ("<" + a + ">");
    var n := |prefix|;
    assert forall i :: 0 <= i < n ==> line[i] == prefix[i] && prefix[i] in prefix;
    forall i | n < i <= n + |a| ensures line[i] == a[i - n - 1] {}
    IndexOfIs(line, '<', n);
    var end := IndexOf(a, '>');
    forall i | 0 <= i < n + 1 + end ensures line[i] != '>' {
      if i > n { assert line[i] == a[i - n - 1]; }
    }
    IndexOfIs(line, '>', n + 1 + end);
    assert line[n + 1..n + 1 + end] == a[..end];
    assert end == |a| <==> '>' !in a;
  }

  lemma EnvelopeCommands(rest: string)
    ensures Command(MAIL_FROM + rest) == "MAIL" && Command(RCPT_TO + rest) == "RCPT" && Command("DATA") == "DATA"
  {
    assert (MAIL_FROM + rest)[..4] == "MAIL" && (RCPT_TO + rest)[..4] == "RCPT";
  }

  lemma SentMail(s: Session, a: string)
    requires !s.closed && !s.dataMode && PlainAddress(a)
    ensures Handle(s, MAIL_FROM + ("<" + a + ">")) == (s.(mailFrom := a), [])
  {
    BracketedAddress(MAIL_FROM, a);
    EnvelopeCommands("<" + a + ">");
  }

  lemma SentRecipient(s: Session, a: string)
    requires !s.closed && !s.dataMode && PlainAddress(a)
    ensures Handle(s, RCPT_TO + ("<" + a + ">")) == (s.(rcptTo := s.rcptTo + [a]), [])
  {
    BracketedAddress(RCPT_TO, a);
    EnvelopeCommands("<" + a + ">");
  }

  lemma {:induction false} SentRecipients(s: Session, to: seq<string>)
    requires !s.closed && !s.dataMode && forall a :: a in to ==> PlainAddress(a)
    ensures State(s, Recipients(to)) == s.(rcptTo := s.rcptTo + to) && Output(s, Recipients(to)) == []
  {
    hide Handle, State, Output, PlainAddress;
    if to == [] {
      assert s.rcptTo + [] == s.rcptTo;
      RunNone(s);
    } else {
      var n := |to| - 1;
      assert Recipients(to)[..n] == Recipients(to[..n]);
      assert to[n] in to;
      RunLast(s, Recipients(to));
      SentRecipients(s, to[..n]);
      SentRecipient(s.(rcptTo := s.rcptTo + to[..n]), to[n]);
      assert s.rcptTo + to[..n] + [to[n]] == s.rcptTo + to;
    }
  }

  lemma SentDataLine(s: Session, line: string)
    requires !s.closed && s.dataMode
    ensures Handle(s, Stuff(line)) == (s.(buffer := s.buffer + (line + CRLF)), [])
  {
    if line != "" && line[0] == '.' {
      assert ("." + line)[1..] == line;
    }
  }

  lemma {:induction false} SentLines(s: Session, lines: seq<string>)
    requires !s.closed && s.dataMode
    ensures State(s, Stuffed(lines)) == s.(buffer := s.buffer + Text(lines)) && Output(s, Stuffed(lines)) == []
  {
    hide Handle, State, Output, Stuff;
    if lines == [] {
      assert s.buffer + "" == s.buffer;
      RunNone(s);
    } else {
      var n := |lines| - 1;
      assert Stuffed(lines)[..n] == Stuffed(lines[..n]);
      RunLast(s, Stuffed(lines));
      SentLines(s, lines[..n]);
      SentDataLine(s.(buffer := s.buffer + Text(lines[..n])), lines[n]);
      assert s.buffer + Text(lines[..n]) + (lines[n] + CRLF) == s.buffer + (Text(lines[..n]) + (lines[n] + CRLF));
    }
  }

  /** From DATA on, the session collects the lines and processes the message at the final dot. */
  lemma SentData(s: Session, lines: seq<string>)
    requires !s.closed && !s.dataMode && s.mailFrom != "" && s.rcptTo != [] && s.buffer == ""
    ensures State(s, ["DATA"] + (Stuffed(lines) + ["."])) == FRESH
    ensures Output(s, ["DATA"] + (Stuffed(lines) + ["."])) == [Message(s.mailFrom, s.rcptTo, Text(lines))]
  {
    var s1 := s.(dataMode := true);
    var s2 := s1.(buffer := Text(lines));
    EnvelopeCommands("");
    assert Handle(s, "DATA") == (s1, []) && Handle(s2, ".") == (FRESH, [Message(s.mailFrom, s.rcptTo, Text(lines))]);
    hide Handle, State, Output;
    RunConcat(s, ["DATA"], Stuffed(lines) + ["."]);
    RunConcat(s1, Stuffed(lines), ["."]);
    RunOne(s, "DATA");
    SentLines(s1, lines);
    assert "" + Text(lines) == Text(lines);
    RunOne(s2, ".");
  }

  lemma SentLetter(m: Letter)
    requires CanSend(m)
    ensures State(FRESH, SendLetter(m)) == FRESH && Output(FRESH, SendLetter(m)) == [Delivered(m)]
  {
    hide Handle, State, Output;
    var s1 := FRESH.(mailFrom := m.from);
    var s2 := s1.(rcptTo := m.to);
    var mail := MAIL_FROM + ("<" + m.from + ">");
    var data := ["DATA"] + (Stuffed(m.lines) + ["."]);
    RunConcat(FRESH, [mail], Recipients(m.to) + data);
    RunConcat(s1, Recipients(m.to), data);
    RunOne(FRESH, mail);
    SentMail(FRESH, m.from);
    SentRecipients(s1, m.to);
    assert [] + m.to == m.to;
    SentData(s2, m.lines);
  }

  /** A whole session delivers exactly the letters sent, in order. */
  lemma {:induction false} SentLetters(letters: seq<Letter>)
    requires forall m :: m in letters ==> CanSend(m)
    ensures After(SendAll(letters)) == FRESH && Processed(SendAll(letters)) == DeliveredAll(letters)
  {
    hide Handle, State, Output, SendLetter, Delivered;
    if letters == [] {
      RunNone(FRESH);
    } else {
      var n := |letters| - 1;
      SentLetters(letters[..n]);
      assert letters[n] in letters;
      SentLetter(letters[n]);
      RunConcat(FRESH, SendAll(letters[..n]), SendLetter(letters[n]));
      assert DeliveredAll(letters) == DeliveredAll(letters[..n]) + [Delivered(letters[n])];
    }
  }

  // ---------- On the wire ----------

  function Wire(lines: seq<string>): string {
    if lines == [] then "" else lines[0] + (CRLF + Wire(lines[1..]))
  }

  predicate CleanLine(line: string) {
    '\n' !in line && (line != "" ==> line[|line| - 1] != '\r')
  }

  lemma ChompLine(line: string)
    requires CleanLine(line)
    ensures Chomp(line + "\r") == line
  {
    var t, cutset := line + "\r", {'\r', '\n'};
    assert t[..|t| - 1] == line && t[|t| - 1] in cutset;
    if line != "" {
      assert line[|line| - 1] in line && line[|line| - 1] !in cutset;
    }
    assert TrimRight(line, cutset) == line;
  }

  lemma ReadFirst(line: string, rest: string)
    requires CleanLine(line)
    ensures ReadLines(line + (CRLF + rest)) == [line] + ReadLines(rest)
  {
    var stream := line + (CRLF + rest);
    var n := |line| + 1;
    forall i | 0 <= i < n ensures stream[i] != '\n' {
      if i < |line| { assert stream[i] == line[i] && line[i] in line; }
    }
    IndexOfIs(stream, '\n', n);
    assert stream[..n] == line + "\r" && stream[n + 1..] == rest;
    ChompLine(line);
  }

  lemma {:induction false} ReadInvertsWire(lines: seq<string>)
    requires forall l :: l in lines ==> CleanLine(l)
    ensures ReadLines(Wire(lines)) == lines
  {
    if lines != [] {
      ReadInvertsWire(lines[1..]);
      assert lines[0] in lines;
      ReadFirst(lines[0], Wire(lines[1..]));
    }
  }

  predicate CleanLetter(m: Letter) {
    '\n' !in m.from && (forall a :: a in m.to ==> '\n' !in a) && forall l :: l in m.lines ==> CleanLine(l)
  }

  lemma SentLinesAreClean(m: Letter)
    requires CleanLetter(m)
    ensures forall l :: l in SendLetter(m) ==> CleanLine(l)
  {
    forall l | l in Recipients(m.to) ensures CleanLine(l) {
      var i :| 0 <= i < |m.to| && l == RCPT_TO + ("<" + m.to[i] + ">");
      assert m.to[i] in m.to;
    }
    forall l | l in Stuffed(m.lines) ensures CleanLine(l) {
      var i :| 0 <= i < |m.lines| && l == Stuff(m.lines[i]);
      assert CleanLine(m.lines[i]);
    }
  }

  lemma {:induction false} SentAllAreClean(letters: seq<Letter>)
    requires forall m :: m in letters ==> CleanLetter(m)
    ensures forall l :: l in SendAll(letters) ==> CleanLine(l)
  {
    if letters != [] {
      SentAllAreClean(letters[..|letters| - 1]);
      SentLinesAreClean(letters[|letters| - 1]);
    }
  }

  /** The bytes of a whole session are processed as exactly the letters sent, in order. */
  lemma SessionRoundTrip(letters: seq<Letter>)
    requires forall m :: m in letters ==> CanSend(m) && CleanLetter(m)
    ensures Processed(ReadLines(Wire(SendAll(letters)))) == DeliveredAll(letters)
  {
    SentAllAreClean(letters);
    ReadInvertsWire(SendAll(letters));
    SentLetters(letters);
  }
}
