/** The BSON walker and the message framing of internal/honeypot/mongodb.go.
    The functions are the specification; MongoHandler holds the loops that compute them. */
module MongoWire {
  import opened Wrappers
  import opened Bytes

  // ---------------------------------------------------------------- the walk over arbitrary bytes

  /** The first NUL at or after pos, or the length. */
  function ToNul(doc: seq<Byte>, limit: nat, pos: nat): (r: nat)
    requires limit <= |doc|
    ensures r >= pos && (pos <= limit ==> r <= limit)
    ensures r < limit ==> doc[r] == 0
    decreases limit - pos
  {
    if pos < limit && doc[pos] != 0 then ToNul(doc, limit, pos + 1) else pos
  }

  function FixedWidth(typ: Byte): Option<nat> {
    if typ == 0x01 || typ == 0x09 || typ == 0x11 || typ == 0x12 then Some(8)
    else if typ == 0x08 then Some(1)
    else if typ == 0x0A then Some(0)
    else if typ == 0x10 then Some(4)
    else if typ == 0x13 then Some(16)
    else None
  }

  /** skipBSONValue: the position after the value, or None for a short or unknown one. */
  function SkipValue(doc: seq<Byte>, pos: nat, typ: Byte): (r: Option<nat>)
    ensures r.Some? ==> pos < |doc| && pos <= r.value
    ensures r.Some? && typ == 0x02 ==> pos + 4 <= |doc| && pos + 5 <= r.value <= |doc|
    ensures r.Some? && typ == 0x05 ==> pos + 5 <= r.value <= |doc|
  {
    if pos >= |doc| then None
    else if FixedWidth(typ).Some? then Some(pos + FixedWidth(typ).value)
    else if typ == 0x02 || typ == 0x0D then
      if pos + 4 > |doc| then None
      else if pos + 4 + Le32(doc, pos) > |doc| || Le32(doc, pos) < 1 then None
      else Some(pos + 4 + Le32(doc, pos))
    else if typ == 0x03 || typ == 0x04 then
      if pos + 4 > |doc| then None
      else if pos + Le32(doc, pos) > |doc| || Le32(doc, pos) < 4 then None
      else Some(pos + Le32(doc, pos))
    else if typ == 0x05 then
      if pos + 5 > |doc| then None
      else if pos + 5 + Le32(doc, pos) > |doc| then None
      else Some(pos + 5 + Le32(doc, pos))
    else if typ == 0x0B then
      Some(ToNul(doc, |doc|, ToNul(doc, |doc|, pos) + 1) + 1)
    else None
  }

  /** An element the walk reached: its type, its name, and where its value starts. */
  datatype Visit = Visit(typ: Byte, name: seq<Byte>, at: nat)

  predicate Skippable(doc: seq<Byte>, vs: seq<Visit>) {
    forall i :: 0 <= i < |vs| ==> SkipValue(doc, vs[i].at, vs[i].typ).Some?
  }

  /** The elements seen from pos on; a short name or value ends the walk. */
  function Visits(doc: seq<Byte>, total: nat, pos: nat): (r: seq<Visit>)
    requires total <= |doc|
    ensures Skippable(doc, r)
    decreases total - pos
  {
    if pos + 1 >= total then []
    else
      var typ := doc[pos];
      var nameEnd := ToNul(doc, total, pos + 1);
      if nameEnd >= total then []
      else
        match SkipValue(doc, nameEnd + 1, typ)
        case None => []
        case Some(end) => [Visit(typ, doc[pos + 1..nameEnd], nameEnd + 1)] + Visits(doc, total, end)
  }

  /** The elements of a document, when its length word is usable. */
  function Elements(doc: seq<Byte>): (r: Option<seq<Visit>>)
    ensures r.Some? ==> Skippable(doc, r.value)
  {
    if |doc| < 4 then None
    else
      var total := Le32(doc, 0);
      if total < 4 || total > |doc| then None else Some(Visits(doc, total, 4))
  }

  // ---------------------------------------------------------------- what is read out of the elements

  const USER: seq<Byte> := Ascii("user")
  const RNONCE: seq<Byte> := Ascii("rnonce")
  const PAYLOAD: seq<Byte> := Ascii("payload")
  const SASL_START: seq<Byte> := Ascii("saslStart")
  const SASL_CONTINUE: seq<Byte> := Ascii("saslContinue")

  /** The text of a string value: length word, bytes, NUL. */
  function TextAt(doc: seq<Byte>, at: nat): seq<Byte>
    requires SkipValue(doc, at, 0x02).Some?
  {
    doc[at + 4..at + 4 + Le32(doc, at) - 1]
  }

  /** The data of a binary value. */
  function DataAt(doc: seq<Byte>, at: nat): seq<Byte>
    requires SkipValue(doc, at, 0x05).Some?
  {
    doc[at + 5..at + 5 + Le32(doc, at)]
  }

  /** The last string element with this name, or the given default. */
  function LastText(doc: seq<Byte>, vs: seq<Visit>, name: seq<Byte>, default: seq<Byte>): seq<Byte>
    requires Skippable(doc, vs)
  {
    if vs == [] then default
    else
      var v := vs[0];
      LastText(doc, vs[1..], name, if v.typ == 0x02 && v.name == name then TextAt(doc, v.at) else default)
  }

  datatype Scram = Scram(user: seq<Byte>, rnonce: seq<Byte>)

  /** parseScramPayload */
  function ParseScram(doc: seq<Byte>): Scram {
    match Elements(doc)
    case None => Scram([], [])
    case Some(vs) => Scram(LastText(doc, vs, USER, []), LastText(doc, vs, RNONCE, []))
  }

  datatype Login = Login(cmd: seq<Byte>, user: seq<Byte>, rnonce: seq<Byte>, isAuth: bool)

  /** What one element adds to the command read so far. */
  function See(doc: seq<Byte>, l: Login, v: Visit): Login
    requires SkipValue(doc, v.at, v.typ).Some?
  {
    if v.name == SASL_START || v.name == SASL_CONTINUE then
      if v.typ == 0x10 then l.(isAuth := true, cmd := v.name) else l
    else if v.name == PAYLOAD && v.typ == 0x05 && doc[v.at + 4] == 0 then
      SeeScram(l, ParseScram(DataAt(doc, v.at)))
    else l
  }

  function SeeScram(l: Login, p: Scram): Login {
    l.(user := if p.user != [] then p.user else l.user, rnonce := if p.rnonce != [] then p.rnonce else l.rnonce)
  }

  function SeeAll(doc: seq<Byte>, l: Login, vs: seq<Visit>): Login
    requires Skippable(doc, vs)
    decreases |vs|
  {
    if vs == [] then l else SeeAll(doc, See(doc, l, vs[0]), vs[1..])
  }

  const NO_LOGIN: Login := Login([], [], [], false)

  /** parseMongoCommand: the login a command document carries, if it is an authentication command. */
  function ParseCommand(doc: seq<Byte>): Option<Login> {
    match Elements(doc)
    case None => None
    case Some(vs) =>
      var l := SeeAll(doc, NO_LOGIN, vs);
      if l.isAuth then Some(l) else None
  }

  // ---------------------------------------------------------------- documents and their encoding

  datatype Value =
    | Fixed(typ: Byte, bytes: seq<Byte>)
    | Text(typ: Byte, text: seq<Byte>)
    | Nested(typ: Byte, elements: seq<Element>)
    | Binary(subtype: Byte, data: seq<Byte>)
    | Regex(pattern: seq<Byte>, options: seq<Byte>)

  datatype Element = Element(name: seq<Byte>, value: Value)

  function Tag(v: Value): Byte {
    match v
    case Fixed(typ, _) => typ
    case Text(typ, _) => typ
    case Nested(typ, _) => typ
    case Binary(_, _) => 0x05
    case Regex(_, _) => 0x0B
  }

  /** The types of BSON whose values have a fixed width: double, bool, UTC datetime, null, int32, timestamp,
      int64 and decimal128. */
  predicate HasWidth(typ: Byte, width: nat) {
    || (width == 8 && typ in {0x01, 0x09, 0x11, 0x12})
    || (width == 4 && typ == 0x10)
    || (width == 1 && typ == 0x08)
    || (width == 0 && typ == 0x0A)
    || (width == 16 && typ == 0x13)
  }

  /** The value is one of the supported BSON types, in its own shape. */
  predicate Supported(v: Value) {
    match v
    case Fixed(typ, bytes) => HasWidth(typ, |bytes|)
    case Text(typ, _) => typ == 0x02 || typ == 0x0D
    case Nested(typ, _) => typ == 0x03 || typ == 0x04
    case Binary(_, _) => true
    case Regex(pattern, options) => 0 !in pattern && 0 !in options
  }

  predicate WellFormed(es: seq<Element>) {
    forall i :: 0 <= i < |es| ==> 0 !in es[i].name && Supported(es[i].value)
  }

  function EncodeValue(v: Value): (b: seq<Byte>)
    decreases v
  {
    match v
    case Fixed(_, bytes) => bytes
    case Text(_, text) => Put32(|text| + 1) + text + [0]
    case Nested(_, elements) =>
      var body := EncodeElements(elements);
      Put32(|body| + 5) + body + [0]
    case Binary(subtype, data) => Put32(|data|) + [subtype] + data
    case Regex(pattern, options) => pattern + [0] + options + [0]
  }

  function EncodeElement(e: Element): seq<Byte>
    decreases e
  {
    [Tag(e.value)] + e.name + [0] + EncodeValue(e.value)
  }

  function EncodeElements(es: seq<Element>): seq<Byte>
    decreases es
  {
    if es == [] then [] else EncodeElement(es[0]) + EncodeElements(es[1..])
  }

  function EncodeDoc(es: seq<Element>): seq<Byte> {
    var body := EncodeElements(es);
    Put32(|body| + 5) + body + [0]
  }

  // ---------------------------------------------------------------- messages

  const OP_QUERY: nat := 2004
  const OP_MSG: nat := 2013
  const MAX_MESSAGE: nat := 0x10_0000

  datatype Message = Message(requestId: nat, responseTo: nat, opCode: nat, body: seq<Byte>)

  /** The header check and the two reads of handleMongoDB: a message and what follows it. */
  function ReadMessage(stream: seq<Byte>): (r: Option<(Message, seq<Byte>)>)
    ensures r.Some? ==> |r.value.1| < |stream|
  {
    if |stream| < 16 then None
    else
      var length := Le32(stream, 0);
      if length < 16 || length > MAX_MESSAGE || |stream| < length then None
      else
        Some((Message(Le32(stream, 4), Le32(stream, 8), Le32(stream, 12), stream[16..length]), stream[length..]))
  }

  /** The command document of a request, if its opcode carries one. */
  function CommandDoc(m: Message): Option<seq<Byte>> {
    if m.opCode == OP_QUERY then
      if |m.body| < 12 then None
      else
        var nameEnd := ToNul(m.body, |m.body|, 4);
        if nameEnd + 9 > |m.body| then None else Some(m.body[nameEnd + 9..])
    else if m.opCode == OP_MSG then
      if |m.body| < 5 then None else Some(m.body[5..])
    else None
  }

  /** buildBSONAuthFail, byte by byte. */
  function BuildAuthFail(errmsg: seq<Byte>): seq<Byte> {
    Put32(4 + (1 + 3 + 4) + (1 + 7 + 4 + (|errmsg| + 1)) + 1)
    + [0x10] + Ascii("ok") + [0] + [0, 0, 0, 0]
    + [0x02] + Ascii("errmsg") + [0] + Put32(|errmsg| + 1) + errmsg + [0] + [0]
  }

  /** buildMongoReply: an OP_REPLY header in front of the document. */
  function BuildReply(errmsg: seq<Byte>): seq<Byte> {
    var doc := BuildAuthFail(errmsg);
    Put32(16 + |doc|) + [0, 0, 0, 0] + [0, 0, 0, 0] + Put32(1) + doc
  }

  /** writeMongoMsg: the same document as an OP_MSG answering the request. */
  function WriteMsg(msg: seq<Byte>, requestId: nat): seq<Byte> {
    if |msg| < 16 then []
    else
      Put32(|msg| + 5) + [0, 0, 0, 0] + Put32(requestId) + Put32(OP_MSG) + [0, 0, 0, 0] + [0] + msg[16..]
  }

  // ---------------------------------------------------------------- a connection

  const CREDS_PER_CONN: nat := 10

  /** What a connection leaves behind: the logins recorded, and the replies written. */
  datatype Session = Session(logins: seq<Login>, replies: seq<seq<Byte>>)

  /** One request: an authentication command is recorded, up to the limit, and refused. */
  function Serve(s: Session, m: Message): Session {
    match CommandDoc(m)
    case None => s
    case Some(doc) =>
      match ParseCommand(doc)
      case None => s
      case Some(l) =>
        Session(if |s.replies| < CREDS_PER_CONN then s.logins + [l] else s.logins,
                s.replies + [WriteMsg(BuildReply(Ascii("Authentication failed")), m.requestId)])
  }

  /** handleMongoDB over everything the client sends. */
  function Handle(s: Session, stream: seq<Byte>): Session
    decreases |stream|
  {
    match ReadMessage(stream)
    case None => s
    case Some((m, rest)) => Handle(Serve(s, m), rest)
  }
}
