/** What each SMTP command does to a session, told by what the session delivers. */
module SmtpCommands {
  import opened Strings
  import opened Smtp
  import opened SmtpClient

  /** Waiting for a command. */
  predicate Idle(s: Session) {
    !s.closed && !s.dataMode
  }

  // ---------- Commands that end something, and commands that do nothing ----------

  /** RSET forgets the sender and every recipient: what follows is delivered as in a session of its own. */
  lemma ResetForgets(lines: seq<string>, line: string, rest: seq<string>)
    requires Idle(After(lines)) && Command(line) == "RSET"
    ensures After(lines + [line]) == FRESH
    ensures Processed(lines + [line] + rest) == Processed(lines) + Processed(rest)
  {
    hide State, Output, Command;
    RunConcat(FRESH, lines, [line]);
    RunOne(After(lines), line);
    RunConcat(FRESH, lines + [line], rest);
    assert Processed(lines) + [] == Processed(lines);
  }

  /** After QUIT nothing is delivered. */
  lemma QuitEnds(lines: seq<string>, line: string, rest: seq<string>)
    requires Idle(After(lines)) && Command(line) == "QUIT"
    ensures Processed(lines + [line] + rest) == Processed(lines)
  {
    hide State, Output, Command;
    RunConcat(FRESH, lines, [line]);
    RunOne(After(lines), line);
    RunConcat(FRESH, lines + [line], rest);
    ClosedIsSilent(After(lines + [line]), rest);
    assert Processed(lines) + [] == Processed(lines);
  }

  predicate IsNeutral(line: string) {
    Command(line) !in {"MAIL", "RCPT", "DATA", "RSET", "QUIT"}
  }

  /** Every other command, and every line that is none, might as well not have been sent. */
  lemma NeutralLine(lines: seq<string>, line: string, rest: seq<string>)
    requires Idle(After(lines)) && IsNeutral(line)
    ensures Processed(lines + [line] + rest) == Processed(lines + rest)
  {
    hide State, Output, Command;
    RunConcat(FRESH, lines, [line]);
    RunOne(After(lines), line);
    RunConcat(FRESH, lines + [line], rest);
    RunConcat(FRESH, lines, rest);
    assert Processed(lines) + [] == Processed(lines);
  }

  /** Commands are read without regard to case, and by their first four letters. */
  lemma CommandIgnoresCase(word: string, line: string)
    requires |word| == 4 <= |line| && forall i :: 0 <= i < 4 ==> 'A' <= word[i] <= 'Z'
    requires forall i :: 0 <= i < 4 ==> line[i] == word[i] || line[i] == 'a' + (word[i] - 'A')
    ensures Command(line) == word
  {
  }

  // ---------- The envelope ----------

  /** The address of the last MAIL, be it empty. */
  function Sender(commands: seq<string>): string {
    if commands == [] then ""
    else
      var last := commands[|commands| - 1];
      if Command(last) == "MAIL" then ExtractAddress(last) else Sender(commands[..|commands| - 1])
  }

  /** The addresses of all RCPT that have one, in order. */
  function Recipients(commands: seq<string>): seq<string> {
    if commands == [] then []
    else
      var last, before := commands[|commands| - 1], Recipients(commands[..|commands| - 1]);
      if Command(last) == "RCPT" && ExtractAddress(last) != "" then before + [ExtractAddress(last)] else before
  }

  predicate EnvelopeOnly(commands: seq<string>) {
    forall line :: line in commands ==> Command(line) !in {"DATA", "RSET", "QUIT"}
  }

  lemma {:induction false} EnvelopeIs(commands: seq<string>)
    requires EnvelopeOnly(commands)
    ensures After(commands) == Session(Sender(commands), Recipients(commands), false, "", false)
    ensures Processed(commands) == []
  {
    hide Command, ExtractAddress;
    if commands != [] {
      var n := |commands| - 1;
      assert commands[n] in commands;
      EnvelopeIs(commands[..n]);
    }
  }

  lemma {:induction false} DataCollects(s: Session, lines: seq<string>)
    requires s.dataMode && !s.closed && "." !in lines
    ensures State(s, lines) == s.(buffer := s.buffer + Body(lines)) && Output(s, lines) == []
  {
    hide Unstuff;
    if lines == [] {
      assert s.buffer + "" == s.buffer;
    } else {
      var n := |lines| - 1;
      var text := Unstuff(lines[n]) + CRLF;
      assert lines[n] in lines;
      DataCollects(s, lines[..n]);
      assert s.buffer + Body(lines[..n]) + text == s.buffer + (Body(lines[..n]) + text);
    }
  }

  /** A message goes to the sender and the recipients that the commands before DATA name, or DATA is refused. */
  lemma Transaction(commands: seq<string>, data: string, lines: seq<string>)
    requires EnvelopeOnly(commands) && Command(data) == "DATA" && "." !in lines
    ensures if Sender(commands) != "" && Recipients(commands) != [] then
              Processed(commands + [data] + lines + ["."]) ==
              [Message(Sender(commands), Recipients(commands), Body(lines))] &&
              After(commands + [data] + lines + ["."]) == FRESH
            else After(commands + [data]) == After(commands) && Processed(commands + [data]) == []
  {
    hide State, Output, Command;
    var all := commands + [data];
    EnvelopeIs(commands);
    RunConcat(FRESH, commands, [data]);
    RunOne(After(commands), data);
    if Sender(commands) != "" && Recipients(commands) != [] {
      RunConcat(FRESH, all, lines);
      DataCollects(After(all), lines);
      RunConcat(FRESH, all + lines, ["."]);
      RunOne(After(all + lines), ".");
      assert "" + Body(lines) == Body(lines);
    }
  }

  lemma FirstColon(prefix: string, a: string)
    requires ':' !in prefix
    ensures IndexOf(prefix + (":" + a), ':') == |prefix|
  {
    hide IndexOf;
    var line := prefix + (":" + a);
    forall i | 0 <= i < |prefix| ensures line[i] != ':' {
      assert line[i] == prefix[i];
    }
    IndexOfIs(line, ':', |prefix|);
  }

  lemma Missing(s: string, c: char)
    requires c !in s
    ensures IndexOf(s, c) == |s|
  {
    hide IndexOf;
    forall i | 0 <= i < |s| ensures s[i] != c {}
    IndexOfIs(s, c, |s|);
  }

  /** Without brackets, the address is what follows the first colon, less the space around it. */
  lemma ColonAddress(prefix: string, a: string)
    requires ':' !in prefix && '<' !in prefix && '<' !in a
    ensures ExtractAddress(prefix + (":" + a)) == Trim(a, SPACES)
  {
    hide IndexOf, Trim;
    FirstColon(prefix, a);
    assert '<' !in ":" + a;
    Missing(prefix + (":" + a), '<');
    assert (prefix + (":" + a))[|prefix| + 1..] == a;
  }

  /** Space and tabs around it do not belong to it. */
  lemma SpacedAddress(prefix: string, before: string, a: string, after: string)
    requires ':' !in prefix && '<' !in prefix && a != "" && forall c :: c in a ==> c != '<' && c !in SPACES
    requires forall c :: c in before || c in after ==> c == ' ' || c == '\t'
    ensures ExtractAddress(prefix + (":" + (before + (a + after)))) == a
  {
    hide ExtractAddress, TrimLeft, TrimRight;
    assert a[0] in a && a[|a| - 1] in a;
    assert '<' !in before && '<' !in a && '<' !in after;
    ColonAddress(prefix, before + (a + after));
    TrimLeftOf(before, a + after);
    TrimRightOf(a, after);
  }

  lemma {:induction false} TrimLeftOf(before: string, s: string)
    requires s != "" && s[0] !in SPACES && forall c :: c in before ==> c in SPACES
    ensures TrimLeft(before + s, SPACES) == s
  {
    if before == "" {
      assert before + s == s;
    } else {
      assert before[0] in before && (before + s)[1..] == before[1..] + s;
      TrimLeftOf(before[1..], s);
    }
  }

  lemma {:induction false} TrimRightOf(s: string, after: string)
    requires s != "" && s[|s| - 1] !in SPACES && forall c :: c in after ==> c in SPACES
    ensures TrimRight(s + after, SPACES) == s
    decreases |after|
  {
    if after == "" {
      assert s + after == s;
    } else {
      var n := |after| - 1;
      assert after[n] in after && (s + after)[..|s + after| - 1] == s + after[..n];
      TrimRightOf(s, after[..n]);
    }
  }

  /** It is the same when no bracket is ever closed. */
  lemma UnclosedAddress(prefix: string, a: string)
    requires ':' !in prefix && '>' !in prefix && '>' !in a
    ensures ExtractAddress(prefix + (":" + a)) == Trim(a, SPACES)
  {
    hide IndexOf, Trim;
    FirstColon(prefix, a);
    assert '>' !in ":" + a;
    Missing(prefix + (":" + a), '>');
    assert (prefix + (":" + a))[|prefix| + 1..] == a;
  }

  lemma NoAddress(line: string)
    requires ':' !in line && '<' !in line
    ensures ExtractAddress(line) == ""
  {
    hide IndexOf, Trim;
    Missing(line, '<');
    Missing(line, ':');
  }

  // ---------- Sessions with abandoned envelopes ----------

  /** A client sends letters, and envelopes that it gives up again. */
  datatype Item = Send(letter: Letter) | Abandon(from: string, to: seq<string>)

  function Envelope(from: string, to: seq<string>): seq<string> {
    [MAIL_FROM + ("<" + from + ">")] + SmtpClient.Recipients(to)
  }

  function ItemLines(item: Item): seq<string> {
    match item
    case Send(letter) => SendLetter(letter)
    case Abandon(from, to) => Envelope(from, to) + ["RSET"]
  }

  function AllLines(items: seq<Item>): seq<string> {
    if items == [] then [] else AllLines(items[..|items| - 1]) + ItemLines(items[|items| - 1])
  }

  function LettersOf(items: seq<Item>): seq<Letter> {
    if items == [] then []
    else
      var last := items[|items| - 1];
      LettersOf(items[..|items| - 1]) + if last.Send? then [last.letter] else []
  }

  lemma EnvelopeNamesOnly(from: string, to: seq<string>)
    ensures EnvelopeOnly(Envelope(from, to))
  {
    hide Command;
    EnvelopeCommands("<" + from + ">");
    forall i | 0 <= i < |to| ensures Command(SmtpClient.Recipients(to)[i]) == "RCPT" {
      EnvelopeCommands("<" + to[i] + ">");
    }
  }

  lemma AbandonedLeavesNothing(from: string, to: seq<string>)
    ensures State(FRESH, ItemLines(Abandon(from, to))) == FRESH && Output(FRESH, ItemLines(Abandon(from, to))) == []
  {
    assert Command("RSET") == "RSET";
    hide Handle, State, Output, Command, EnvelopeOnly, Envelope, Sender, Recipients;
    var commands := Envelope(from, to);
    EnvelopeNamesOnly(from, to);
    EnvelopeIs(commands);
    ResetForgets(commands, "RSET", []);
    RunNone(FRESH);
    assert commands + ["RSET"] + [] == commands + ["RSET"];
  }

  lemma {:induction false} OnlyLettersArrive(items: seq<Item>)
    requires forall item :: item in items && item.Send? ==> CanSend(item.letter)
    ensures After(AllLines(items)) == FRESH && Processed(AllLines(items)) == DeliveredAll(LettersOf(items))
  {
    hide Handle, State, Output, ItemLines, Delivered;
    if items == [] {
      RunNone(FRESH);
    } else {
      var n := |items| - 1;
      OnlyLettersArrive(items[..n]);
      assert items[n] in items;
      RunConcat(FRESH, AllLines(items[..n]), ItemLines(items[n]));
      match items[n]
      case Send(letter) =>
        assert ItemLines(items[n]) == SendLetter(letter) by { ItemIsLetter(letter); }
        SentLetter(letter);
        assert DeliveredAll(LettersOf(items)) == DeliveredAll(LettersOf(items[..n])) + [Delivered(letter)];
      case Abandon(from, to) =>
        AbandonedLeavesNothing(from, to);
        assert DeliveredAll(LettersOf(items)) == DeliveredAll(LettersOf(items[..n])) + [];
    }
  }

  lemma ItemIsLetter(letter: Letter)
    ensures ItemLines(Send(letter)) == SendLetter(letter)
  {
  }

  predicate CleanItem(item: Item) {
    match item
    case Send(letter) => CleanLetter(letter)
    case Abandon(from, to) => CleanLetter(Letter(from, to, []))
  }

  lemma ItemLinesAreClean(item: Item)
    requires CleanItem(item)
    ensures forall l :: l in ItemLines(item) ==> CleanLine(l)
  {
    match item
    case Send(letter) => SentLinesAreClean(letter);
    case Abandon(from, to) =>
      var letter := Letter(from, to, []);
      SentLinesAreClean(letter);
      forall l | l in ItemLines(item) ensures l in SendLetter(letter) || l == "RSET" {}
  }

  lemma {:induction false} AllLinesAreClean(items: seq<Item>)
    requires forall item :: item in items ==> CleanItem(item)
    ensures forall l :: l in AllLines(items) ==> CleanLine(l)
  {
    if items != [] {
      hide CleanItem, CleanLine, ItemLines;
      var n := |items| - 1;
      assert items[n] in items;
      AllLinesAreClean(items[..n]);
      ItemLinesAreClean(items[n]);
    }
  }

  /** From the bytes of a session in which envelopes are given up between the letters, exactly the letters arrive. */
  lemma SessionWithAbandonedEnvelopes(items: seq<Item>)
    requires forall item :: item in items ==> CleanItem(item) && (item.Send? ==> CanSend(item.letter))
    ensures Processed(ReadLines(Wire(AllLines(items)))) == DeliveredAll(LettersOf(items))
  {
    AllLinesAreClean(items);
    ReadInvertsWire(AllLines(items));
    OnlyLettersArrive(items);
  }

  lemma NoLine(tail: string)
    requires '\n' !in tail
    ensures ReadLines(tail) == []
  {
    Missing(tail, '\n');
  }

  lemma WireStep(lines: seq<string>, tail: string)
    requires lines != []
    ensures Wire(lines) + tail == lines[0] + (CRLF + (Wire(lines[1..]) + tail))
  {
  }

  /** A line that the stream ends before its end is not read. */
  lemma {:induction false} UnfinishedLineIsLost(lines: seq<string>, tail: string)
    requires (forall l :: l in lines ==> CleanLine(l)) && '\n' !in tail
    ensures ReadLines(Wire(lines) + tail) == lines
  {
    if lines == [] {
      NoLine(tail);
      assert "" + tail == tail;
    } else {
      hide IndexOf, CleanLine, ReadLines, Wire;
      WireStep(lines, tail);
      UnfinishedLineIsLost(lines[1..], tail);
      ReadFirst(lines[0], Wire(lines[1..]) + tail);
      assert [lines[0]] + lines[1..] == lines;
    }
  }
}
