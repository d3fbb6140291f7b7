/**
 * What the line and RESP readers of the honeypot take from a connection (internal/honeypot/telnet.go,
 * internal/honeypot/redis.go), as functions of the bytes the peer sends until it closes.
 *
 * The Unicode tables behind upper-casing and word splitting matter only for names and lines that are
 * not plain ASCII; for those the library's answer is a parameter.
 */
module RespWire {
  import opened Wrappers
  import opened Bytes
  import Decimal

  type Text = seq<Byte>

  datatype Library = Library(upper: Text -> Text, fields: Text -> seq<Text>)

  const LF: Byte := 10
  const CR: Byte := 13
  const IAC: Byte := 0xFF
  const BUFFER: nat := 4096
  const MAX_LINE: nat := 65536
  const MAX_TEXT: nat := 4096
  const MAX_BULK: nat := 65536
  const MAX_ELEMENTS: nat := 64
  const CREDS_PER_CONN: nat := 10

  // ---------------------------------------------------------------- one line

  /** The number of bytes up to and including the first LF; all of them if there is none. */
  function ThroughLf(b: Text): (n: nat)
    ensures n <= |b| && (b != [] ==> n > 0)
  {
    if b == [] then 0 else if b[0] == LF then 1 else 1 + ThroughLf(b[1..])
  }

  /** How much of the input is one line: through the first LF, but no more than MAX_LINE bytes. */
  function LineEnd(input: Text): (n: nat)
    ensures n <= |input| && (input != [] ==> n > 0)
  {
    var n := ThroughLf(input);
    if n < MAX_LINE then n else MAX_LINE
  }

  function TrimLineEnd(b: Text): Text {
    if b != [] && (b[|b| - 1] == CR || b[|b| - 1] == LF) then TrimLineEnd(b[..|b| - 1]) else b
  }

  /** The text without TELNET negotiations: an IAC goes with the two bytes that follow it. */
  function StripIac(b: Text): Text {
    if b == [] then []
    else if b[0] == IAC then if |b| < 3 then [] else StripIac(b[3..])
    else [b[0]] + StripIac(b[1..])
  }

  function Truncated(b: Text): Text {
    if |b| > MAX_TEXT then b[..MAX_TEXT] else b
  }

  function CleanLine(raw: Text): Text {
    Truncated(StripIac(TrimLineEnd(raw)))
  }

  /** The value read and the input left; None once the connection gives no more. */
  type Taken<+T> = Option<(T, Text)>

  function Line(input: Text): Taken<Text> {
    if input == [] then None else Some((CleanLine(input[..LineEnd(input)]), input[LineEnd(input)..]))
  }

  // ---------------------------------------------------------------- numbers and bulk strings

  function Chars(b: Text): (s: string)
    ensures |s| == |b|
  {
    seq(|b|, (i: int) requires 0 <= i < |b| => b[i] as char)
  }

  /** strconv.Atoi, with every failure and everything outside 0..MAX_BULK read as 0. */
  function RespInt(line: Text): (n: nat)
    ensures n <= MAX_BULK
  {
    var s := Chars(line);
    var signed := s != "" && (s[0] == '+' || s[0] == '-');
    var digits := if signed then s[1..] else s;
    if digits == "" || !Decimal.AllDigits(digits) || (signed && s[0] == '-') then 0 else
      var n := Decimal.Read(digits);
      if n > MAX_BULK then 0 else n
  }

  function Number(input: Text): Taken<nat> {
    var l := Line(input);
    if l.None? then None else Some((RespInt(l.value.0), l.value.1))
  }

  function Bulk(input: Text): Taken<Text> {
    if input == [] then None
    else if input[0] != '$' as int then Some(([], input[1..]))
    else
      var n := Number(input[1..]);
      if n.None? || |n.value.1| < n.value.0 + 2 then None
      else Some((n.value.1[..n.value.0], n.value.1[n.value.0 + 2..]))
  }

  function Bulks(count: nat, input: Text): Taken<seq<Text>> {
    if count == 0 then Some(([], input)) else
      var e := Bulk(input);
      if e.None? then None else
        var more := Bulks(count - 1, e.value.1);
        if more.None? then None else Some(([e.value.0] + more.value.0, more.value.1))
  }

  // ---------------------------------------------------------------- commands

  predicate IsAscii(b: Text) { forall i :: 0 <= i < |b| ==> b[i] < 0x80 }

  predicate IsSpace(c: Byte) { 9 <= c <= 13 || c == 32 }

  function UpperByte(c: Byte): Byte {
    if 'a' as int <= c <= 'z' as int then c - 32 else c
  }

  /** strings.ToUpper */
  function Upper(lib: Library, b: Text): Text {
    if IsAscii(b) then seq(|b|, (i: int) requires 0 <= i < |b| => UpperByte(b[i])) else lib.upper(b)
  }

  function WordLength(b: Text): (n: nat)
    ensures n <= |b|
  {
    if b == [] || IsSpace(b[0]) then 0 else 1 + WordLength(b[1..])
  }

  function Words(b: Text): seq<Text>
    decreases |b|
  {
    if b == [] then []
    else if IsSpace(b[0]) then Words(b[1..])
    else [b[..WordLength(b)]] + Words(b[WordLength(b)..])
  }

  /** strings.Fields */
  function Fields(lib: Library, b: Text): seq<Text> {
    if IsAscii(b) then Words(b) else lib.fields(b)
  }

  datatype Command = Command(name: Text, args: seq<Text>)

  const NO_COMMAND := Command([], [])

  function Named(lib: Library, words: seq<Text>): Command {
    if words == [] then NO_COMMAND else Command(Upper(lib, words[0]), words[1..])
  }

  function InlineCommand(lib: Library, input: Text): Taken<Command> {
    var l := Line(input);
    if l.None? then None else Some((Named(lib, Fields(lib, l.value.0)), l.value.1))
  }

  function ArrayCommand(lib: Library, input: Text): Taken<Command> {
    var n := Number(input);
    if n.None? then None
    else if n.value.0 == 0 || n.value.0 > MAX_ELEMENTS then Some((NO_COMMAND, n.value.1))
    else
      var es := Bulks(n.value.0, n.value.1);
      if es.None? then None else Some((Named(lib, es.value.0), es.value.1))
  }

  /** One command: an array of bulk strings after '*', otherwise an inline line. */
  function ReadCommand(lib: Library, input: Text): Taken<Command> {
    if input == [] then None
    else if input[0] != '*' as int then InlineCommand(lib, input)
    else ArrayCommand(lib, input[1..])
  }

  // ---------------------------------------------------------------- the session

  datatype Cred = Cred(user: Text, pass: Text)

  /** What the connection has recorded and answered; seen counts every credential offered. */
  datatype Session = Session(creds: seq<Cred>, seen: nat, replies: seq<string>, quit: bool)

  const FRESH := Session([], 0, [], false)

  const AUTH := Ascii("AUTH")
  const HELLO := Ascii("HELLO")
  const QUIT := Ascii("QUIT")
  const ARITY := "-ERR wrong number of arguments for 'auth' command\r\n"
  const INVALID := "-ERR invalid password\r\n"
  const NO_HELLO := "-ERR unknown command 'HELLO'\r\n"
  const UNKNOWN := "-ERR unknown command\r\n"
  const BYE := "+OK\r\n"

  /** strings.EqualFold against "AUTH" */
  predicate FoldsToAuth(b: Text) {
    |b| == 4 && forall i :: 0 <= i < 4 ==> UpperByte(b[i]) == AUTH[i]
  }

  /** The credential a command carries. */
  function Credential(c: Command): Option<Cred> {
    if c.name == AUTH && |c.args| == 1 then Some(Cred([], c.args[0]))
    else if c.name == AUTH && |c.args| == 2 then Some(Cred(c.args[0], c.args[1]))
    else if c.name == HELLO && |c.args| >= 4 && FoldsToAuth(c.args[1]) then Some(Cred(c.args[2], c.args[3]))
    else None
  }

  function Reply(c: Command): string {
    if c.name == AUTH then if |c.args| == 1 || |c.args| == 2 then INVALID else ARITY
    else if c.name == HELLO then NO_HELLO
    else if c.name == QUIT then BYE
    else UNKNOWN
  }

  function Serve(s: Session, c: Command): Session {
    var r := Credential(c);
    Session(
      if r.Some? && s.seen < CREDS_PER_CONN then s.creds + [r.value] else s.creds,
      if r.Some? then s.seen + 1 else s.seen,
      s.replies + [Reply(c)],
      c.name == QUIT)
  }

  lemma {:induction false} BulksShorten(count: nat, input: Text)
    ensures Bulks(count, input).Some? ==> |Bulks(count, input).value.1| <= |input|
  {
    if count > 0 && Bulk(input).Some? {
      BulksShorten(count - 1, Bulk(input).value.1);
    }
  }

  /** Every command takes something from the input. */
  lemma CommandShortens(lib: Library, input: Text)
    ensures ReadCommand(lib, input).Some? ==> |ReadCommand(lib, input).value.1| < |input|
  {
    if input != [] && input[0] == '*' as int {
      var n := Number(input[1..]);
      if n.Some? {
        BulksShorten(n.value.0, n.value.1);
      }
    }
  }

  /** The command loop of a connection. */
  function Handle(lib: Library, s: Session, input: Text): Session
    decreases |input|
  {
    CommandShortens(lib, input);
    var c := ReadCommand(lib, input);
    if c.None? then s else
      var next := Serve(s, c.value.0);
      if next.quit then next else Handle(lib, next, c.value.1)
  }
}
