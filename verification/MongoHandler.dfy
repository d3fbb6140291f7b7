/** The loops of internal/honeypot/mongodb.go, over any bytes at all. */
module MongoHandler {
  import opened Wrappers
  import opened Bytes
  import opened MongoWire

  /** An index loop up to the first NUL before limit. */
  method ScanToNul(doc: seq<Byte>, limit: nat, from: nat) returns (end: nat)
    requires limit <= |doc|
    ensures end == ToNul(doc, limit, from)
  {
    end := from;
    while end < limit && doc[end] != 0
      invariant end >= from && ToNul(doc, limit, from) == ToNul(doc, limit, end)
      decreases limit - end
    {
      end := end + 1;
    }
  }

  method SkipBsonValue(doc: seq<Byte>, pos: nat, typ: Byte) returns (end: Option<nat>)
    ensures end == SkipValue(doc, pos, typ)
  {
    if pos >= |doc| { return None; }
    if typ == 0x01 || typ == 0x09 || typ == 0x11 || typ == 0x12 { return Some(pos + 8); }
    if typ == 0x08 { return Some(pos + 1); }
    if typ == 0x0A { return Some(pos); }
    if typ == 0x10 { return Some(pos + 4); }
    if typ == 0x13 { return Some(pos + 16); }
    if typ == 0x0B {
      var p := ScanToNul(doc, |doc|, pos);
      p := ScanToNul(doc, |doc|, p + 1);
      return Some(p + 1);
    }
    if typ != 0x02 && typ != 0x0D && typ != 0x03 && typ != 0x04 && typ != 0x05 { return None; }
    if pos + (if typ == 0x05 then 5 else 4) > |doc| { return None; }
    var n := Le32(doc, pos);
    if typ == 0x03 || typ == 0x04 {
      if pos + n > |doc| || n < 4 { return None; }
      return Some(pos + n);
    }
    if typ == 0x05 {
      if pos + 5 + n > |doc| { return None; }
      return Some(pos + 5 + n);
    }
    if pos + 4 + n > |doc| || n < 1 { return None; }
    return Some(pos + 4 + n);
  }

  /** The head of both parsers' loops: one element, or the end of the walk. */
  method NextElement(doc: seq<Byte>, total: nat, pos: nat) returns (v: Option<Visit>, next: nat)
    requires total <= |doc| && pos + 1 < total
    ensures next >= pos
    ensures v.None? ==> Visits(doc, total, pos) == []
    ensures v.Some? ==> next > pos && SkipValue(doc, v.value.at, v.value.typ).Some?
    ensures v.Some? ==> Visits(doc, total, pos) == [v.value] + Visits(doc, total, next)
  {
    next := pos;
    var typ := doc[pos];
    var nameEnd := ScanToNul(doc, total, pos + 1);
    if nameEnd >= total { return None, pos; }
    var end := SkipBsonValue(doc, nameEnd + 1, typ);
    if end.None? { return None, pos; }
    return Some(Visit(typ, doc[pos + 1..nameEnd], nameEnd + 1)), end.value;
  }

  method ParseScramPayload(doc: seq<Byte>) returns (p: Scram)
    ensures p == ParseScram(doc)
  {
    p := Scram([], []);
    if |doc| < 4 { return; }
    var total := Le32(doc, 0);
    if total < 4 || total > |doc| { return; }
    var pos := 4;
    ghost var vs := Visits(doc, total, 4);
    while pos + 1 < total
      invariant Skippable(doc, vs)
      invariant vs == Visits(doc, total, pos)
      invariant LastText(doc, Visits(doc, total, 4), USER, []) == LastText(doc, vs, USER, p.user)
      invariant LastText(doc, Visits(doc, total, 4), RNONCE, []) == LastText(doc, vs, RNONCE, p.rnonce)
      decreases total - pos
    {
      var v, next := NextElement(doc, total, pos);
      if v.None? { return; }
      assert vs[0] == v.value && vs[1..] == Visits(doc, total, next);
      p := OneText(doc, p, v.value);
      pos := next;
      vs := Visits(doc, total, next);
    }
  }

  /** The switch over one element of a payload. */
  method OneText(doc: seq<Byte>, p: Scram, v: Visit) returns (r: Scram)
    requires SkipValue(doc, v.at, v.typ).Some?
    ensures r.user == if v.typ == 0x02 && v.name == USER then TextAt(doc, v.at) else p.user
    ensures r.rnonce == if v.typ == 0x02 && v.name == RNONCE then TextAt(doc, v.at) else p.rnonce
  {
    r := p;
    assert USER != RNONCE by { assert |USER| != |RNONCE|; }
    if v.typ == 0x02 {
      var text := doc[v.at + 4..v.at + 4 + Le32(doc, v.at) - 1];
      if v.name == USER {
        r := p.(user := text);
      } else if v.name == RNONCE {
        r := p.(rnonce := text);
      }
    }
  }

  method ParseMongoCommand(doc: seq<Byte>) returns (r: Option<Login>)
    ensures r == ParseCommand(doc)
  {
    if |doc| < 4 { return None; }
    var total := Le32(doc, 0);
    if total < 4 || total > |doc| { return None; }
    var l := NO_LOGIN;
    var pos := 4;
    ghost var vs := Visits(doc, total, 4);
    while pos + 1 < total
      invariant Skippable(doc, vs)
      invariant vs == Visits(doc, total, pos)
      invariant SeeAll(doc, NO_LOGIN, Visits(doc, total, 4)) == SeeAll(doc, l, vs)
      decreases total - pos
    {
      var v, next := NextElement(doc, total, pos);
      if v.None? { break; }
      assert vs[0] == v.value && vs[1..] == Visits(doc, total, next);
      l := OneElement(doc, l, v.value);
      pos := next;
      vs := Visits(doc, total, next);
    }
    assert vs == [];
    if !l.isAuth { return None; }
    return Some(l);
  }

  /** The switch over one element of a command. */
  method OneElement(doc: seq<Byte>, l: Login, v: Visit) returns (r: Login)
    requires SkipValue(doc, v.at, v.typ).Some?
    ensures r == See(doc, l, v)
  {
    r := l;
    if v.name == SASL_START || v.name == SASL_CONTINUE {
      if v.typ == 0x10 { r := r.(isAuth := true, cmd := v.name); }
    } else if v.name == PAYLOAD && v.typ == 0x05 {
      var n := Le32(doc, v.at);
      if doc[v.at + 4] == 0 {
        var p := ParseScramPayload(doc[v.at + 5..v.at + 5 + n]);
        if p.user != [] { r := r.(user := p.user); }
        if p.rnonce != [] { r := r.(rnonce := p.rnonce); }
      }
    }
  }

  /** The read loop of a connection. */
  method HandleMongoDB(stream: seq<Byte>) returns (s: Session)
    ensures s == Handle(Session([], []), stream)
  {
    s := Session([], []);
    var rest := stream;
    while true
      invariant Handle(Session([], []), stream) == Handle(s, rest)
      decreases |rest|
    {
      var read := ReadMessage(rest);
      if read.None? { return; }
      var m := read.value.0;
      ghost var before := s;
      rest := read.value.1;
      var doc := CommandDoc(m);
      if doc.Some? {
        var l := ParseMongoCommand(doc.value);
        if l.Some? {
          var logins := if |s.replies| < CREDS_PER_CONN then s.logins + [l.value] else s.logins;
          s := Session(logins, s.replies + [WriteMsg(BuildReply(Ascii("Authentication failed")), m.requestId)]);
        }
      }
      assert s == Serve(before, m);
    }
  }
}
