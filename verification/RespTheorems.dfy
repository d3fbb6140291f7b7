/** Reading back what a client sends: commands as arrays of bulk strings, inline lines, negotiations. */
module RespTheorems {
  import opened Wrappers
  import opened Bytes
  import opened RespWire
  import Decimal

  // ---------------------------------------------------------------- what a client writes

  const CRLF: Text := [CR, LF]

  function Prefixed(mark: char, n: nat): Text {
    Ascii([mark] + Decimal.Show(n)) + CRLF
  }

  function EncodeBulk(e: Text): Text {
    Prefixed('$', |e|) + e + CRLF
  }

  function EncodeBulks(es: seq<Text>): Text {
    if es == [] then [] else EncodeBulk(es[0]) + EncodeBulks(es[1..])
  }

  function EncodeCommand(es: seq<Text>): Text {
    Prefixed('*', |es|) + EncodeBulks(es)
  }

  function EncodeAll(commands: seq<seq<Text>>): Text {
    if commands == [] then [] else EncodeCommand(commands[0]) + EncodeAll(commands[1..])
  }

  predicate Sendable(es: seq<Text>) {
    1 <= |es| <= MAX_ELEMENTS && forall i :: 0 <= i < |es| ==> |es[i]| <= MAX_BULK
  }

  // ---------------------------------------------------------------- lines

  lemma {:induction false} ThroughLfAt(a: Text, rest: Text)
    requires LF !in a
    ensures ThroughLf(a + [LF] + rest) == |a| + 1
  {
    if a != [] {
      assert (a + [LF] + rest)[1..] == a[1..] + [LF] + rest;
      ThroughLfAt(a[1..], rest);
    }
  }

  lemma {:induction false} StripPlain(b: Text)
    requires IAC !in b
    ensures StripIac(b) == b
  {
    if b != [] {
      StripPlain(b[1..]);
    }
  }

  lemma TrimOne(b: Text, c: Byte)
    requires c == CR || c == LF
    ensures TrimLineEnd(b + [c]) == TrimLineEnd(b)
  {
  }

  lemma TrimCrLf(a: Text)
    requires a != [] ==> a[|a| - 1] != CR && a[|a| - 1] != LF
    ensures TrimLineEnd(a + CRLF) == a
  {
    assert a + CRLF == (a + [CR]) + [LF];
    TrimOne(a + [CR], LF);
    TrimOne(a, CR);
  }

  lemma PlainLine(a: Text, rest: Text)
    requires LF !in a && CR !in a && IAC !in a && |a| <= MAX_TEXT
    ensures Line(a + CRLF + rest) == Some((a, rest))
  {
    var input := a + CRLF + rest;
    assert input == (a + [CR]) + [LF] + rest;
    ThroughLfAt(a + [CR], rest);
    assert input[..|a| + 2] == a + CRLF;
    TrimCrLf(a);
    StripPlain(a);
    assert input[|a| + 2..] == rest;
  }

  // ---------------------------------------------------------------- numbers

  lemma {:induction false} ShowShort(n: nat)
    ensures |Decimal.Show(n)| <= 2 + n / 100
  {
    if n >= 100 {
      ShowShort(n / 10);
    } else if n >= 10 {
      assert |Decimal.Show(n / 10)| == 1;
    }
  }

  lemma CharsAscii(s: string)
    requires forall i :: 0 <= i < |s| ==> s[i] as int < 256
    ensures Chars(Ascii(s)) == s
  {
  }

  /** The digits of a number, as bytes. */
  function Digits(n: nat): (b: Text)
    ensures Chars(b) == Decimal.Show(n)
    ensures LF !in b && CR !in b && IAC !in b
  {
    CharsAscii(Decimal.Show(n));
    Ascii(Decimal.Show(n))
  }

  lemma DigitsRead(n: nat)
    requires n <= MAX_BULK
    ensures RespInt(Digits(n)) == n
  {
    Decimal.ReadShow(n);
    assert Decimal.IsDigit(Decimal.Show(n)[0]);
  }

  lemma NumberReads(n: nat, rest: Text)
    requires n <= MAX_BULK
    ensures Number(Ascii(Decimal.Show(n)) + CRLF + rest) == Some((n, rest))
  {
    hide RespInt, Line;
    ShowShort(n);
    PlainLine(Digits(n), rest);
    DigitsRead(n);
  }

  lemma PrefixedReads(mark: char, n: nat, rest: Text)
    requires n <= MAX_BULK && mark as int < 256
    ensures var input := Prefixed(mark, n) + rest;
      input != [] && input[0] == mark as int && Number(input[1..]) == Some((n, rest))
  {
    NumberReads(n, rest);
    assert (Prefixed(mark, n) + rest)[1..] == Ascii(Decimal.Show(n)) + CRLF + rest;
  }

  // ---------------------------------------------------------------- commands

  lemma BulkReads(e: Text, rest: Text)
    requires |e| <= MAX_BULK
    ensures Bulk(EncodeBulk(e) + rest) == Some((e, rest))
  {
    var after := e + CRLF + rest;
    PrefixedReads('$', |e|, after);
    assert EncodeBulk(e) + rest == Prefixed('$', |e|) + after;
    assert after[..|e|] == e && after[|e| + 2..] == rest;
  }

  lemma {:induction false} BulksRead(es: seq<Text>, rest: Text)
    requires forall i :: 0 <= i < |es| ==> |es[i]| <= MAX_BULK
    ensures Bulks(|es|, EncodeBulks(es) + rest) == Some((es, rest))
  {
    if es == [] {
      assert EncodeBulks(es) + rest == rest;
    } else {
      hide Bulk, EncodeBulk;
      var more := EncodeBulks(es[1..]) + rest;
      BulkReads(es[0], more);
      BulksRead(es[1..], rest);
      Regroup(EncodeBulk(es[0]), EncodeBulks(es[1..]), rest);
      assert [es[0]] + es[1..] == es;
    }
  }

  /** One command sent as an array of bulk strings is read back whole, and only its bytes are used. */
  lemma CommandReads(lib: Library, es: seq<Text>, rest: Text)
    requires Sendable(es)
    ensures ReadCommand(lib, EncodeCommand(es) + rest) == Some((Command(Upper(lib, es[0]), es[1..]), rest))
  {
    var body := EncodeBulks(es) + rest;
    PrefixedReads('*', |es|, body);
    BulksRead(es, rest);
    assert EncodeCommand(es) + rest == Prefixed('*', |es|) + body;
  }

  function Commands(lib: Library, commands: seq<seq<Text>>): (cs: seq<Command>)
    requires forall i :: 0 <= i < |commands| ==> Sendable(commands[i])
    ensures |cs| == |commands|
  {
    if commands == [] then [] else
      assert Sendable(commands[0]);
      [Command(Upper(lib, commands[0][0]), commands[0][1..])] + Commands(lib, commands[1..])
  }

  /** The commands a reader takes from the input, one after the other. */
  function ReadAll(lib: Library, n: nat, input: Text): Taken<seq<Command>> {
    if n == 0 then Some(([], input)) else
      var c := ReadCommand(lib, input);
      if c.None? then None else
        var more := ReadAll(lib, n - 1, c.value.1);
        if more.None? then None else Some(([c.value.0] + more.value.0, more.value.1))
  }

  lemma FirstReads(lib: Library, commands: seq<seq<Text>>, rest: Text) returns (c: Command, more: Text)
    requires commands != [] && Sendable(commands[0])
    ensures c == Command(Upper(lib, commands[0][0]), commands[0][1..])
    ensures more == EncodeAll(commands[1..]) + rest
    ensures ReadCommand(lib, EncodeAll(commands) + rest) == Some((c, more))
  {
    hide ReadCommand, EncodeCommand, Upper;
    c := Command(Upper(lib, commands[0][0]), commands[0][1..]);
    more := EncodeAll(commands[1..]) + rest;
    CommandReads(lib, commands[0], more);
    Regroup(EncodeCommand(commands[0]), EncodeAll(commands[1..]), rest);
  }

  /** A pipeline of commands is read back command by command and byte for byte. */
  lemma {:induction false} PipelineReads(lib: Library, commands: seq<seq<Text>>, rest: Text)
    requires forall i :: 0 <= i < |commands| ==> Sendable(commands[i])
    ensures ReadAll(lib, |commands|, EncodeAll(commands) + rest) == Some((Commands(lib, commands), rest))
  {
    hide ReadCommand, EncodeCommand, Upper;
    if commands == [] {
      assert EncodeAll(commands) + rest == rest;
    } else {
      var c, more := FirstReads(lib, commands, rest);
      PipelineReads(lib, commands[1..], rest);
    }
  }

  /** What is not a number reads as 0: nothing, any character but a digit or a leading sign, a minus. */
  lemma MalformedIsZero(line: Text, i: nat)
    requires line == [] || line[0] == '-' as int
      || (i < |line| && !('0' as int <= line[i] <= '9' as int) && (i > 0 || line[0] != '+' as int))
    ensures RespInt(line) == 0
  {
    var s := Chars(line);
    if line != [] && line[0] != '-' as int {
      assert s[i] == line[i] as char;
      var signed := s[0] == '+' || s[0] == '-';
      var digits := if signed then s[1..] else s;
      assert (if signed then digits[i - 1] else digits[i]) == s[i];
    }
  }

  // ---------------------------------------------------------------- what a command records and is answered

  /** The word is the name in some mixture of upper and lower case; names are in upper case. */
  predicate Spells(word: Text, name: string) {
    |word| == |name| && forall i :: 0 <= i < |name| ==>
      word[i] == name[i] as int || ('A' <= name[i] <= 'Z' && word[i] == name[i] as int + 32)
  }

  predicate IsName(name: string) { forall i :: 0 <= i < |name| ==> 'A' <= name[i] <= 'Z' }

  lemma SpellsExact(lib: Library, word: Text, name: string)
    requires IsName(name) && IsAscii(word)
    ensures Upper(lib, word) == Ascii(name) <==> Spells(word, name)
  {
    var upper, ascii := Upper(lib, word), Ascii(name);
    if upper == ascii {
      forall i | 0 <= i < |name| ensures word[i] == name[i] as int || word[i] == name[i] as int + 32 {
        assert UpperByte(word[i]) == upper[i] == ascii[i] == name[i] as int;
      }
    }
    if Spells(word, name) {
      forall i | 0 <= i < |name| ensures upper[i] == ascii[i] {
        assert UpperByte(word[i]) == name[i] as int;
      }
    }
  }

  lemma SpelledIsAscii(word: Text, name: string)
    requires IsName(name) && Spells(word, name)
    ensures IsAscii(word)
  {
  }

  lemma NamesDiffer()
    ensures AUTH != HELLO && AUTH != QUIT && HELLO != QUIT
  {
    assert |AUTH| == 4 && |HELLO| == 5 && |QUIT| == 4;
    assert AUTH[0] == 'A' as int && QUIT[0] == 'Q' as int;
  }

  /** AUTH, in any letter case: one argument is the password, two are user and password; both are refused
      with one answer, and any other number of arguments with another. */
  lemma AuthRecords(lib: Library, word: Text, args: seq<Text>)
    requires Spells(word, "AUTH")
    ensures var c := Named(lib, [word] + args);
      && Credential(c) == (if |args| == 1 then Some(Cred([], args[0]))
                           else if |args| == 2 then Some(Cred(args[0], args[1])) else None)
      && Reply(c) == (if |args| == 1 || |args| == 2 then "-ERR invalid password\r\n"
                      else "-ERR wrong number of arguments for 'auth' command\r\n")
  {
    SpelledIsAscii(word, "AUTH");
    SpellsExact(lib, word, "AUTH");
    NamesDiffer();
    assert ([word] + args)[1..] == args;
  }

  /** HELLO, in any letter case: with AUTH, in any letter case, as its second argument and two more after it,
      these are user and password; the answer is always the same. */
  lemma HelloRecords(lib: Library, word: Text, args: seq<Text>)
    requires Spells(word, "HELLO")
    ensures var c := Named(lib, [word] + args);
      && Credential(c) == (if |args| >= 4 && Spells(args[1], "AUTH") then Some(Cred(args[2], args[3])) else None)
      && Reply(c) == "-ERR unknown command 'HELLO'\r\n"
  {
    SpelledIsAscii(word, "HELLO");
    SpellsExact(lib, word, "HELLO");
    NamesDiffer();
    assert ([word] + args)[1..] == args;
    if |args| >= 4 { FoldsExact(args[1]); }
  }

  lemma FoldsExact(word: Text)
    ensures FoldsToAuth(word) <==> Spells(word, "AUTH")
  {
    var name := "AUTH";
    assert forall i :: 0 <= i < 4 ==> AUTH[i] == name[i] as int;
    if FoldsToAuth(word) {
      forall i | 0 <= i < 4 ensures word[i] == name[i] as int || word[i] == name[i] as int + 32 {
        assert UpperByte(word[i]) == name[i] as int;
      }
    }
    if Spells(word, name) {
      forall i | 0 <= i < 4 ensures UpperByte(word[i]) == AUTH[i] {}
    }
  }

  /** Any other word records nothing: QUIT is wished well, and the rest is unknown. */
  lemma OtherCommands(lib: Library, word: Text, args: seq<Text>)
    requires IsAscii(word) && !Spells(word, "AUTH") && !Spells(word, "HELLO")
    ensures var c := Named(lib, [word] + args);
      && Credential(c) == None && (c.name == QUIT <==> Spells(word, "QUIT"))
      && Reply(c) == if Spells(word, "QUIT") then "+OK\r\n" else "-ERR unknown command\r\n"
  {
    SpellsExact(lib, word, "AUTH");
    SpellsExact(lib, word, "HELLO");
    SpellsExact(lib, word, "QUIT");
  }

  // ---------------------------------------------------------------- the session

  /** The credentials offered by a list of commands. */
  function Offered(cs: seq<Command>): seq<Cred> {
    if cs == [] then []
    else Offer(cs[0]) + Offered(cs[1..])
  }

  function Replies(cs: seq<Command>): (r: seq<string>)
    ensures |r| == |cs|
  {
    seq(|cs|, (i: int) requires 0 <= i < |cs| => Reply(cs[i]))
  }

  function Capped(creds: seq<Cred>, n: nat): seq<Cred> {
    if |creds| > n then creds[..n] else creds
  }

  /** A session that has been offered these credentials and has answered these commands. */
  predicate Served(s: Session, offered: seq<Cred>, replies: seq<string>) {
    s.creds == Capped(offered, CREDS_PER_CONN) && s.seen == |offered| && s.replies == replies
  }

  function Offer(c: Command): (o: seq<Cred>)
    ensures |o| <= 1
  {
    if Credential(c).Some? then [Credential(c).value] else []
  }

  lemma ServeStep(s: Session, offered: seq<Cred>, replies: seq<string>, c: Command)
    requires Served(s, offered, replies)
    ensures Served(Serve(s, c), offered + Offer(c), replies + [Reply(c)])
  {
  }

  lemma TalliesStep(offered: seq<Cred>, replies: seq<string>, cs: seq<Command>)
    requires cs != []
    ensures (offered + Offer(cs[0])) + Offered(cs[1..]) == offered + Offered(cs)
    ensures (replies + [Reply(cs[0])]) + Replies(cs[1..]) == replies + Replies(cs)
  {
    hide Reply, Offer;
    Regroup(offered, Offer(cs[0]), Offered(cs[1..]));
    assert Replies(cs) == [Reply(cs[0])] + Replies(cs[1..]);
    Regroup(replies, [Reply(cs[0])], Replies(cs[1..]));
  }

  /** The commands that are served: QUIT is answered and ends the session. */
  function UpToQuit(cs: seq<Command>): (served: seq<Command>)
    ensures |served| <= |cs|
  {
    if cs == [] then [] else if cs[0].name == QUIT then [cs[0]] else [cs[0]] + UpToQuit(cs[1..])
  }

  lemma {:induction false} SessionServes(lib: Library, s: Session, commands: seq<seq<Text>>,
                                         offered: seq<Cred>, replies: seq<string>)
    requires forall i :: 0 <= i < |commands| ==> Sendable(commands[i])
    requires Served(s, offered, replies)
    ensures var cs := UpToQuit(Commands(lib, commands));
      Served(Handle(lib, s, EncodeAll(commands)), offered + Offered(cs), replies + Replies(cs))
    decreases |commands|
  {
    hide ReadCommand, EncodeCommand, Upper, Served, Credential, Reply, Offer;
    var cs := UpToQuit(Commands(lib, commands));
    if commands == [] {
      assert offered + Offered(cs) == offered && replies + Replies(cs) == replies;
      NothingRead(lib);
    } else {
      var input := EncodeAll(commands);
      assert input + [] == input;
      var c, more := FirstReads(lib, commands, []);
      assert more == EncodeAll(commands[1..]);
      assert c == cs[0] && Commands(lib, commands)[1..] == Commands(lib, commands[1..]);
      ServeStep(s, offered, replies, c);
      TalliesStep(offered, replies, cs);
      if c.name == QUIT {
        assert cs[1..] == [];
        NoneLeft(offered + Offer(c), replies + [Reply(c)]);
      } else {
        SessionServes(lib, Serve(s, c), commands[1..], offered + Offer(c), replies + [Reply(c)]);
      }
    }
  }

  lemma NoneLeft(offered: seq<Cred>, replies: seq<string>)
    ensures offered + Offered([]) == offered && replies + Replies([]) == replies
  {
  }

  lemma NothingRead(lib: Library)
    ensures ReadCommand(lib, []) == None
  {
  }

  /**
   * A client that sends commands of any size, all at once, gets one answer for each, in order and up
   * to its first QUIT, and its first CREDS_PER_CONN credentials are recorded, in order.
   */
  lemma SessionRecords(lib: Library, commands: seq<seq<Text>>)
    requires forall i :: 0 <= i < |commands| ==> Sendable(commands[i])
    ensures var s := Handle(lib, FRESH, EncodeAll(commands));
      var cs := UpToQuit(Commands(lib, commands));
      s.creds == Capped(Offered(cs), CREDS_PER_CONN) && s.replies == Replies(cs)
  {
    SessionServes(lib, FRESH, commands, [], []);
    var cs := UpToQuit(Commands(lib, commands));
    assert [] + Offered(cs) == Offered(cs);
    assert [] + Replies(cs) == Replies(cs);
  }

  // ---------------------------------------------------------------- inline commands

  predicate Word(w: Text) {
    w != [] && IsAscii(w) && forall i :: 0 <= i < |w| ==> !IsSpace(w[i])
  }

  function Spaced(words: seq<Text>): Text {
    if words == [] then [] else if |words| == 1 then words[0] else words[0] + [32] + Spaced(words[1..])
  }

  lemma {:induction false} WordLengthAt(w: Text, rest: Text)
    requires forall i :: 0 <= i < |w| ==> !IsSpace(w[i])
    requires rest == [] || IsSpace(rest[0])
    ensures WordLength(w + rest) == |w|
  {
    if w == [] {
      assert w + rest == rest;
    } else {
      assert (w + rest)[1..] == w[1..] + rest;
      WordLengthAt(w[1..], rest);
    }
  }

  lemma {:induction false} WordsOfSpaced(words: seq<Text>)
    requires forall i :: 0 <= i < |words| ==> Word(words[i])
    ensures Words(Spaced(words)) == words
  {
    if |words| == 0 {
    } else if |words| == 1 {
      var w := words[0];
      WordLengthAt(w, []);
      assert w + [] == w && w[..|w|] == w && w[|w|..] == [];
      assert Words(w) == [w] + Words([]);
    } else {
      var w, rest := words[0], [32] + Spaced(words[1..]);
      var b := w + rest;
      assert Spaced(words) == b;
      WordLengthAt(w, rest);
      WordsOfSpaced(words[1..]);
      assert b[..|w|] == w && b[|w|..] == rest;
      assert rest[1..] == Spaced(words[1..]);
      assert Words(rest) == words[1..];
      assert b[0] == w[0];
      assert Words(b) == [w] + words[1..];
    }
  }

  lemma {:induction false} SpacedIsPlain(words: seq<Text>)
    requires forall i :: 0 <= i < |words| ==> Word(words[i])
    ensures forall i :: 0 <= i < |Spaced(words)| ==>
      Spaced(words)[i] < 0x80 && Spaced(words)[i] != CR && Spaced(words)[i] != LF
  {
    if |words| == 1 {
      assert Word(words[0]);
    } else if |words| > 1 {
      assert Word(words[0]);
      SpacedIsPlain(words[1..]);
    }
  }

  /** A line of words is read as a command, its words as the arguments. */
  lemma InlineReads(lib: Library, words: seq<Text>, rest: Text)
    requires words != [] && Word(words[0]) && forall i :: 0 <= i < |words| ==> Word(words[i])
    requires words[0][0] != '*' as int && |Spaced(words)| <= MAX_TEXT
    ensures ReadCommand(lib, Spaced(words) + CRLF + rest) == Some((Command(Upper(lib, words[0]), words[1..]), rest))
  {
    var b := Spaced(words);
    SpacedIsPlain(words);
    PlainLine(b, rest);
    WordsOfSpaced(words);
    assert b[0] == words[0][0];
    assert (b + CRLF + rest)[0] == b[0];
  }

  // ---------------------------------------------------------------- negotiations

  /** What a TELNET client sends: characters and three-byte negotiations. */
  datatype Item = Plain(c: Byte) | Negotiation(command: Byte, option: Byte)

  function Sent(items: seq<Item>): Text {
    if items == [] then []
    else (match items[0] case Plain(c) => [c] case Negotiation(m, o) => [IAC, m, o]) + Sent(items[1..])
  }

  function Typed(items: seq<Item>): Text {
    if items == [] then [] else (if items[0].Plain? then [items[0].c] else []) + Typed(items[1..])
  }

  /** Negotiations leave nothing behind, wherever they stand: what is left is what was typed. */
  lemma {:induction false} NegotiationsVanish(items: seq<Item>)
    requires forall i :: 0 <= i < |items| && items[i].Plain? ==> items[i].c != IAC
    ensures StripIac(Sent(items)) == Typed(items)
  {
    if items != [] {
      NegotiationsVanish(items[1..]);
      var b := Sent(items);
      match items[0]
      case Plain(c) => assert b[1..] == Sent(items[1..]);
      case Negotiation(m, o) => assert b[3..] == Sent(items[1..]);
    }
  }

  /** The text of a line is never longer than MAX_TEXT, and the bytes taken for it never more than MAX_LINE. */
  lemma LinesAreBounded(input: Text)
    requires input != []
    ensures Line(input).Some?
    ensures |Line(input).value.0| <= MAX_TEXT
    ensures |input| - MAX_LINE <= |Line(input).value.1| < |input|
    ensures input[LineEnd(input)..] == Line(input).value.1
  {
  }
}
