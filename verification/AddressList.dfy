/** Splitting a header's address list at commas outside quotes and angle brackets (section 3.4 of RFC 5322). */
module AddressList {
  import opened Strings
  import opened Smtp

  /** What the scanner carries: whether it is inside quotes, inside angle brackets, and the text since the last
      comma. */
  datatype Scan = Scan(inQuotes: bool, inAngle: bool, current: string)

  predicate Splits(k: Scan, ch: char) {
    ch == ',' && !k.inQuotes && !k.inAngle
  }

  /** The scanner after a character that does not split the list. */
  function Next(k: Scan, ch: char): Scan {
    Scan(if ch == '"' then !k.inQuotes else k.inQuotes,
         if ch == '<' then true else if ch == '>' then false else k.inAngle,
         k.current + [ch])
  }

  /** The addresses read so far, with the current text trimmed and added unless there is none. */
  function Add(done: seq<string>, current: string): seq<string> {
    if current == "" then done else done + [Trim(current, SPACES)]
  }

  function SplitFrom(s: string, k: Scan, done: seq<string>): seq<string>
    decreases |s|
  {
    if s == "" then Add(done, k.current)
    else if Splits(k, s[0]) then SplitFrom(s[1..], k.(current := ""), Add(done, k.current))
    else SplitFrom(s[1..], Next(k, s[0]), done)
  }

  const START := Scan(false, false, "")

  function Split(s: string): seq<string> {
    SplitFrom(s, START, [])
  }

  method SplitAddresses(s: string) returns (result: seq<string>)
    ensures result == Split(s)
  {
    result := [];
    var current, inQuotes, inAngle := "", false, false;
    assert s[0..] == s;
    for i := 0 to |s|
      invariant SplitFrom(s[i..], Scan(inQuotes, inAngle, current), result) == Split(s)
    {
      var ch := s[i];
      assert s[i..][1..] == s[i + 1..];
      if ch == ',' && !inQuotes && !inAngle {
        if current != "" {
          result := result + [Trim(current, SPACES)];
          current := "";
        }
      } else {
        if ch == '"' {
          inQuotes := !inQuotes;
        } else if ch == '<' {
          inAngle := true;
        } else if ch == '>' {
          inAngle := false;
        }
        current := current + [ch];
      }
    }
    if current != "" {
      result := result + [Trim(current, SPACES)];
    }
  }

  // ---------- Round trip ----------

  /** The scanner reads all of `s` from `k` without meeting a comma that splits. */
  predicate Protected(s: string, k: Scan)
    decreases |s|
  {
    s == "" || (!Splits(k, s[0]) && Protected(s[1..], Next(k, s[0])))
  }

  function ScanAll(s: string, k: Scan): Scan
    decreases |s|
  {
    if s == "" then k else ScanAll(s[1..], Next(k, s[0]))
  }

  /** An address that stands on its own in a list: trimmed, not empty, its commas
      protected, its quotes and brackets closed. */
  predicate Closed(a: string) {
    && a != "" && Trim(a, SPACES) == a
    && Protected(a, START)
    && !ScanAll(a, START).inQuotes && !ScanAll(a, START).inAngle
  }

  /** The list joined with a comma and a space. */
  function Join(addresses: seq<string>): string {
    if addresses == [] then ""
    else if |addresses| == 1 then addresses[0]
    else addresses[0] + ", " + Join(addresses[1..])
  }

  lemma {:induction false} ScanText(s: string, k: Scan, text: string)
    ensures ScanAll(s, k.(current := text)).current == text + s
    ensures ScanAll(s, k.(current := text)).inQuotes == ScanAll(s, k).inQuotes
    ensures ScanAll(s, k.(current := text)).inAngle == ScanAll(s, k).inAngle
    ensures Protected(s, k.(current := text)) == Protected(s, k)
    decreases |s|
  {
    if s == "" {
      assert text + s == text;
    } else {
      ScanText(s[1..], Next(k, s[0]), text + [s[0]]);
      assert text + [s[0]] + s[1..] == text + s;
    }
  }

  lemma {:induction false} SplitProtected(s: string, k: Scan, rest: string, done: seq<string>)
    requires Protected(s, k)
    ensures SplitFrom(s + rest, k, done) == SplitFrom(rest, ScanAll(s, k), done)
    decreases |s|
  {
    if s == "" {
      assert s + rest == rest;
    } else {
      assert (s + rest)[1..] == s[1..] + rest;
      SplitProtected(s[1..], Next(k, s[0]), rest, done);
    }
  }

  lemma {:induction false} TrimmedEnds(s: string, cutset: set<char>)
    requires s != "" && Trim(s, cutset) == s
    ensures s[0] !in cutset && s[|s| - 1] !in cutset
  {
    TrimLeftLength(s, cutset);
    TrimRightLength(TrimLeft(s, cutset), cutset);
  }

  lemma {:induction false} TrimLeftLength(s: string, cutset: set<char>)
    ensures |TrimLeft(s, cutset)| <= |s|
    ensures s != "" && s[0] in cutset ==> |TrimLeft(s, cutset)| < |s|
  {
    if s != "" && s[0] in cutset {
      TrimLeftLength(s[1..], cutset);
    }
  }

  lemma {:induction false} TrimRightLength(s: string, cutset: set<char>)
    ensures |TrimRight(s, cutset)| <= |s|
    ensures s != "" && s[|s| - 1] in cutset ==> |TrimRight(s, cutset)| < |s|
    decreases |s|
  {
    if s != "" && s[|s| - 1] in cutset {
      TrimRightLength(s[..|s| - 1], cutset);
    }
  }

  lemma TrimSpaced(a: string)
    requires a != "" && Trim(a, SPACES) == a
    ensures Trim(" " + a, SPACES) == a
  {
    TrimmedEnds(a, SPACES);
    assert (" " + a)[1..] == a;
    assert TrimLeft(a, SPACES) == a;
  }

  /** Reading one closed address, after a space unless it is the first. */
  lemma ReadAddress(lead: string, a: string, rest: string, done: seq<string>)
    requires Closed(a) && (lead == "" || lead == " ")
    ensures SplitFrom(lead + a + rest, START, done) == SplitFrom(rest, Scan(false, false, lead + a), done)
    ensures Trim(lead + a, SPACES) == a && lead + a != ""
  {
    ScanText(a, START, lead);
    SplitProtected(a, START.(current := lead), rest, done);
    if lead == " " {
      TrimSpaced(a);
      assert (lead + a + rest)[1..] == a + rest;
      assert Next(START, ' ').current == lead;
    } else {
      assert lead + a == a;
    }
  }

  lemma {:induction false} SplitJoined(lead: string, addresses: seq<string>, done: seq<string>)
    requires addresses != [] && (forall a :: a in addresses ==> Closed(a)) && (lead == "" || lead == " ")
    ensures SplitFrom(lead + Join(addresses), START, done) == done + addresses
    decreases |addresses|
  {
    hide SplitFrom, Closed;
    var a := addresses[0];
    if |addresses| == 1 {
      ReadAddress(lead, a, "", done);
      assert lead + a + "" == lead + Join(addresses);
      SplitEnd(Scan(false, false, lead + a), done);
      assert addresses == [a];
    } else {
      var more := " " + Join(addresses[1..]);
      ReadAddress(lead, a, "," + more, done);
      assert lead + a + ("," + more) == lead + Join(addresses);
      SplitComma(lead + a, more, done);
      SplitJoined(" ", addresses[1..], done + [a]);
      assert done + [a] + addresses[1..] == done + addresses;
    }
  }

  lemma SplitEnd(k: Scan, done: seq<string>)
    ensures SplitFrom("", k, done) == Add(done, k.current)
  {
  }

  lemma SplitComma(current: string, rest: string, done: seq<string>)
    ensures SplitFrom("," + rest, Scan(false, false, current), done) == SplitFrom(rest, START, Add(done, current))
  {
    assert ("," + rest)[1..] == rest;
  }

  /** Splitting a joined list of closed addresses gives the list back. */
  lemma SplitInvertsJoin(addresses: seq<string>)
    requires forall a :: a in addresses ==> Closed(a)
    ensures Split(Join(addresses)) == addresses
  {
    if addresses != [] {
      SplitJoined("", addresses, []);
      assert "" + Join(addresses) == Join(addresses) && [] + addresses == addresses;
    }
  }

  // ---------- Mailboxes ----------

  /** An entry as mail programs write it: the bare address, or a quoted name and the address in angle brackets. */
  datatype Mailbox = Bare(address: string) | Named(name: string, address: string) {
    function Text(): string {
      match this
      case Bare(a) => a
      case Named(q, a) => "\"" + (q + ("\" <" + (a + ">")))
    }

    predicate Valid() {
      match this
      case Bare(a) => a != "" && Trim(a, SPACES) == a && ',' !in a && '"' !in a && '<' !in a && '>' !in a
      case Named(q, a) => '"' !in q && '>' !in a && Quotes(a) % 2 == 0
    }
  }

  function Quotes(s: string): nat {
    if s == "" then 0 else (if s[0] == '"' then 1 else 0) + Quotes(s[1..])
  }

  lemma {:induction false} ScanConcat(a: string, b: string, k: Scan)
    ensures Protected(a + b, k) <==> Protected(a, k) && Protected(b, ScanAll(a, k))
    ensures ScanAll(a + b, k) == ScanAll(b, ScanAll(a, k))
    decreases |a|
  {
    if a == "" {
      assert a + b == b;
    } else {
      assert (a + b)[1..] == a[1..] + b;
      ScanConcat(a[1..], b, Next(k, a[0]));
    }
  }

  /** Inside quotes no comma splits, and only a quote ends them. */
  lemma {:induction false} ScanName(q: string, k: Scan)
    requires '"' !in q && k.inQuotes
    ensures Protected(q, k) && ScanAll(q, k).inQuotes
    decreases |q|
  {
    if q != "" {
      ScanName(q[1..], Next(k, q[0]));
    }
  }

  /** Inside angle brackets no comma splits, and only a closing bracket ends them. */
  lemma {:induction false} ScanAngle(a: string, k: Scan)
    requires '>' !in a && k.inAngle
    ensures Protected(a, k) && ScanAll(a, k).inAngle
    ensures ScanAll(a, k).inQuotes == if Quotes(a) % 2 == 0 then k.inQuotes else !k.inQuotes
    decreases |a|
  {
    if a != "" {
      ScanAngle(a[1..], Next(k, a[0]));
    }
  }

  lemma {:induction false} ScanBare(a: string, k: Scan)
    requires ',' !in a && '"' !in a && '<' !in a && '>' !in a && !k.inQuotes && !k.inAngle
    ensures Protected(a, k) && !ScanAll(a, k).inQuotes && !ScanAll(a, k).inAngle
    decreases |a|
  {
    if a != "" {
      ScanBare(a[1..], Next(k, a[0]));
    }
  }

  lemma TrimmedAlready(s: string, cutset: set<char>)
    requires s != "" && s[0] !in cutset && s[|s| - 1] !in cutset
    ensures Trim(s, cutset) == s
  {
  }

  lemma ScanStep(c: char, rest: string, k: Scan)
    ensures Protected([c] + rest, k) <==> !Splits(k, c) && Protected(rest, Next(k, c))
    ensures ScanAll([c] + rest, k) == ScanAll(rest, Next(k, c))
  {
    assert ([c] + rest)[1..] == rest;
  }

  /** A quoted name and an address in brackets stand on their own in a list exactly when the address closes the quotes
      it opens; the name may have commas and brackets, the address commas. */
  lemma NamedIsClosed(q: string, a: string)
    requires '"' !in q && '>' !in a
    ensures Closed(Named(q, a).Text()) <==> Quotes(a) % 2 == 0
  {
    hide Protected, ScanAll, Quotes, Trim;
    var text := Named(q, a).Text();
    var k1 := Next(START, '"');
    var k2 := ScanAll(q, k1);
    var k3 := Next(Next(Next(k2, '"'), ' '), '<');
    var k4 := ScanAll(a, k3);
    ScanName(q, k1);
    ScanAngle(a, k3);
    NamedSteps(q, a);
    TrimmedAlready(text, SPACES);
  }

  /** The scanner goes over the name, over what is between, and over the address. */
  lemma NamedSteps(q: string, a: string)
    requires '"' !in q && '>' !in a
    ensures var k2 := ScanAll(q, Next(START, '"'));
            var k3 := Next(Next(Next(k2, '"'), ' '), '<');
            Protected(Named(q, a).Text(), START) && ScanAll(Named(q, a).Text(), START) == Next(ScanAll(a, k3), '>')
  {
    hide Protected, ScanAll;
    var k1 := Next(START, '"');
    var k2 := ScanAll(q, k1);
    var k3 := Next(Next(Next(k2, '"'), ' '), '<');
    var after := a + ">";
    ScanName(q, k1);
    ScanAngle(a, k3);
    ScanEnd(ScanAll(a, k3));
    ScanConcat(a, ">", k3);
    ScanStep('<', after, Next(Next(k2, '"'), ' '));
    ScanStep(' ', "<" + after, Next(k2, '"'));
    ScanStep('"', " " + ("<" + after), k2);
    assert "\"" + (" " + ("<" + after)) == "\" <" + after;
    ScanConcat(q, "\" <" + after, k1);
    ScanStep('"', q + ("\" <" + after), START);
  }

  lemma ScanEnd(k: Scan)
    ensures Protected(">", k) && ScanAll(">", k) == Next(k, '>')
  {
    assert ">"[1..] == "";
  }

  lemma ValidIsClosed(m: Mailbox)
    requires m.Valid()
    ensures Closed(m.Text())
  {
    match m
    case Bare(a) => ScanBare(a, START);
    case Named(q, a) => NamedIsClosed(q, a);
  }

  function TextsOf(mailboxes: seq<Mailbox>): seq<string> {
    seq(|mailboxes|, i requires 0 <= i < |mailboxes| => mailboxes[i].Text())
  }

  /** A header that lists mailboxes is split into them, commas in names and brackets notwithstanding. */
  lemma SplitHeader(mailboxes: seq<Mailbox>)
    requires forall m :: m in mailboxes ==> m.Valid()
    ensures Split(Join(TextsOf(mailboxes))) == TextsOf(mailboxes)
  {
    hide Closed;
    forall i | 0 <= i < |mailboxes| ensures Closed(TextsOf(mailboxes)[i]) {
      assert mailboxes[i] in mailboxes;
      ValidIsClosed(mailboxes[i]);
    }
    SplitInvertsJoin(TextsOf(mailboxes));
  }

  /** A comma with nothing before it adds no address. */
  lemma LeadingCommaIsIdle(s: string)
    ensures Split("," + s) == Split(s)
  {
    SplitComma("", s, []);
  }
}
