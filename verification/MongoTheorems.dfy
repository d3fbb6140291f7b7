/** The walker inverts BSON encoding, and the reply it sends reads back. */
module MongoTheorems {
  import opened Wrappers
  import opened Bytes
  import opened MongoWire

  /** `part` stands in `whole` at `at`. */
  ghost predicate Stands(whole: seq<Byte>, at: nat, part: seq<Byte>) {
    at + |part| <= |whole| && whole[at..at + |part|] == part
  }

  lemma StandsPrefix(whole: seq<Byte>, at: nat, a: seq<Byte>, b: seq<Byte>)
    requires Stands(whole, at, a + b)
    ensures Stands(whole, at, a) && Stands(whole, at + |a|, b)
  {
    var w := whole[at..at + |a + b|];
    assert whole[at..at + |a|] == w[..|a|] == a;
    assert whole[at + |a|..at + |a| + |b|] == w[|a|..] == b;
  }

  lemma StandsWord(whole: seq<Byte>, at: nat, n: nat)
    requires Stands(whole, at, Put32(n)) && n < WORD
    ensures Le32(whole, at) == n
  {
    PutGet(n, [], []);
    var p := Put32(n);
    assert [] + p + [] == p;
    var w := whole[at..at + 4];
    assert w[0] == whole[at] && w[1] == whole[at + 1] && w[2] == whole[at + 2] && w[3] == whole[at + 3];
  }

  lemma {:induction false} NulAt(doc: seq<Byte>, limit: nat, pos: nat, text: seq<Byte>)
    requires limit <= |doc| && pos + |text| < limit && Stands(doc, pos, text) && 0 !in text && doc[pos + |text|] == 0
    ensures ToNul(doc, limit, pos) == pos + |text|
    decreases |text|
  {
    if text != [] {
      assert doc[pos] == doc[pos..pos + |text|][0] == text[0];
      assert [text[0]] + text[1..] == text;
      StandsPrefix(doc, pos, [text[0]], text[1..]);
      NulAt(doc, limit, pos + 1, text[1..]);
    }
  }

  /** skipBSONValue lands exactly after every encoded value of a supported type. */
  lemma SkipEncoded(v: Value, doc: seq<Byte>, at: nat)
    requires Supported(v) && Stands(doc, at, EncodeValue(v)) && at + |EncodeValue(v)| < |doc|
    requires |EncodeValue(v)| < WORD
    ensures SkipValue(doc, at, Tag(v)) == Some(at + |EncodeValue(v)|)
  {
    hide EncodeElements, ToNul, Stands, FixedWidth, HasWidth, Put32, Le32;
    Widths(Tag(v), |EncodeValue(v)|);
    match v
    case Fixed(typ, bytes) =>
    case Text(typ, text) =>
      Regroup(Put32(|text| + 1), text, [0]);
      SkipCounted(doc, at, |text| + 1, text + [0]);
    case Nested(typ, es) =>
      Regroup(Put32(|EncodeElements(es)| + 5), EncodeElements(es), [0]);
      SkipCounted(doc, at, |EncodeElements(es)| + 5, EncodeElements(es) + [0]);
    case Binary(subtype, data) =>
      Regroup(Put32(|data|), [subtype], data);
      SkipCounted(doc, at, |data|, [subtype] + data);
    case Regex(pattern, options) => SkipRegex(pattern, options, doc, at);
  }

  /** The walker's widths are those of BSON, and no other type has one. */
  lemma Widths(typ: Byte, width: nat)
    ensures FixedWidth(typ) == Some(width) <==> HasWidth(typ, width)
    ensures typ in {0x02, 0x03, 0x04, 0x05, 0x0B, 0x0D} ==> FixedWidth(typ) == None
  {
  }

  /** A value that starts with a length word. */
  lemma SkipCounted(doc: seq<Byte>, at: nat, n: nat, body: seq<Byte>)
    requires n < WORD && Stands(doc, at, Put32(n) + body)
    ensures Le32(doc, at) == n
  {
    StandsPrefix(doc, at, Put32(n), body);
    StandsWord(doc, at, n);
  }

  lemma SkipRegex(pattern: seq<Byte>, options: seq<Byte>, doc: seq<Byte>, at: nat)
    requires 0 !in pattern && 0 !in options
    requires Stands(doc, at, pattern + [0] + options + [0])
    ensures ToNul(doc, |doc|, ToNul(doc, |doc|, at) + 1) == at + |pattern| + 1 + |options|
  {
    hide Stands, ToNul;
    assert pattern + [0] + options + [0] == pattern + ([0] + (options + [0]));
    StandsPrefix(doc, at, pattern, [0] + (options + [0]));
    StandsPrefix(doc, at + |pattern|, [0], options + [0]);
    StandsPrefix(doc, at + |pattern| + 1, options, [0]);
    ByteAt(doc, at + |pattern|, 0);
    ByteAt(doc, at + |pattern| + 1 + |options|, 0);
    NulAt(doc, |doc|, at, pattern);
    NulAt(doc, |doc|, at + |pattern| + 1, options);
  }

  lemma ByteAt(doc: seq<Byte>, at: nat, b: Byte)
    requires Stands(doc, at, [b])
    ensures at < |doc| && doc[at] == b
  {
  }

  /** The visits are the elements: same types, same names, each value where its encoding stands. */
  ghost predicate Located(doc: seq<Byte>, es: seq<Element>, vs: seq<Visit>) {
    && |vs| == |es|
    && forall i :: 0 <= i < |es| ==> LocatedOne(doc, es[i], vs[i])
  }

  ghost predicate LocatedOne(doc: seq<Byte>, e: Element, v: Visit) {
    v.typ == Tag(e.value) && v.name == e.name && Stands(doc, v.at, EncodeValue(e.value))
  }

  lemma ElementParts(e: Element, doc: seq<Byte>, pos: nat)
    requires Stands(doc, pos, EncodeElement(e))
    ensures Stands(doc, pos, [Tag(e.value)]) && Stands(doc, pos + 1, e.name) && Stands(doc, pos + 1 + |e.name|, [0])
    ensures Stands(doc, pos + 1 + |e.name| + 1, EncodeValue(e.value))
    ensures |EncodeElement(e)| == 1 + |e.name| + 1 + |EncodeValue(e.value)|
    ensures pos + |EncodeElement(e)| <= |doc| && doc[pos + 1..pos + 1 + |e.name|] == e.name
  {
    var v := EncodeValue(e.value);
    assert EncodeElement(e) == [Tag(e.value)] + (e.name + ([0] + v));
    hide EncodeValue, EncodeElement, Tag;
    StandsPrefix(doc, pos, [Tag(e.value)], e.name + ([0] + v));
    StandsPrefix(doc, pos + 1, e.name, [0] + v);
    StandsPrefix(doc, pos + 1 + |e.name|, [0], v);
  }

  lemma OneVisit(e: Element, doc: seq<Byte>, total: nat, pos: nat) returns (v: Visit)
    requires total <= |doc| && pos + |EncodeElement(e)| < total < WORD
    requires Stands(doc, pos, EncodeElement(e)) && 0 !in e.name && Supported(e.value)
    ensures LocatedOne(doc, e, v)
    ensures Visits(doc, total, pos) == [v] + Visits(doc, total, pos + |EncodeElement(e)|)
  {
    hide EncodeValue, EncodeElement, SkipValue, ToNul, Supported, Stands, Tag, Visits;
    ElementParts(e, doc, pos);
    var at := pos + 1 + |e.name| + 1;
    ByteAt(doc, pos, Tag(e.value));
    ByteAt(doc, at - 1, 0);
    NulAt(doc, total, pos + 1, e.name);
    SkipEncoded(e.value, doc, at);
    v := Visit(Tag(e.value), e.name, at);
    VisitStep(doc, total, pos, v, pos + |EncodeElement(e)|);
  }

  lemma VisitStep(doc: seq<Byte>, total: nat, pos: nat, v: Visit, end: nat)
    requires total <= |doc| && pos + 1 <= v.at - 1 < total && doc[pos] == v.typ
    requires ToNul(doc, total, pos + 1) == v.at - 1 && doc[pos + 1..v.at - 1] == v.name
    requires SkipValue(doc, v.at, v.typ) == Some(end)
    ensures Visits(doc, total, pos) == [v] + Visits(doc, total, end)
  {
    hide SkipValue;
  }

  lemma {:induction false} VisitsElements(es: seq<Element>, doc: seq<Byte>, total: nat, pos: nat)
    requires WellFormed(es) && total <= |doc| && total < WORD
    requires Stands(doc, pos, EncodeElements(es)) && pos + |EncodeElements(es)| + 1 == total
    ensures Located(doc, es, Visits(doc, total, pos))
    decreases |es|
  {
    hide LocatedOne, EncodeElement, SkipValue, ToNul, Stands, Supported;
    if es == [] {
      assert Visits(doc, total, pos) == [];
    } else {
      StandsPrefix(doc, pos, EncodeElement(es[0]), EncodeElements(es[1..]));
      var v := OneVisit(es[0], doc, total, pos);
      VisitsElements(es[1..], doc, total, pos + |EncodeElement(es[0])|);
      LocatedCons(doc, es, v, Visits(doc, total, pos + |EncodeElement(es[0])|));
    }
  }

  lemma LocatedCons(doc: seq<Byte>, es: seq<Element>, v: Visit, tail: seq<Visit>)
    requires es != [] && LocatedOne(doc, es[0], v) && Located(doc, es[1..], tail)
    ensures Located(doc, es, [v] + tail)
  {
  }

  /** An encoded document, with anything after it, is walked element by element. */
  lemma WalkInvertsEncoding(es: seq<Element>, after: seq<Byte>)
    requires WellFormed(es) && |EncodeDoc(es)| < WORD
    ensures var doc := EncodeDoc(es) + after;
      Elements(doc).Some? && Located(doc, es, Elements(doc).value)
  {
    hide EncodeElements, EncodeElement, Put32, Le32, Visits, Located, WellFormed;
    var body := EncodeElements(es);
    var doc := DocParts(body, after);
    StandsPrefix(doc, 0, Put32(|body| + 5), body + ([0] + after));
    StandsPrefix(doc, 4, body, [0] + after);
    StandsWord(doc, 0, |body| + 5);
    VisitsElements(es, doc, |body| + 5, 4);
  }

  lemma DocParts(body: seq<Byte>, after: seq<Byte>) returns (doc: seq<Byte>)
    ensures doc == Put32(|body| + 5) + body + [0] + after
    ensures Stands(doc, 0, Put32(|body| + 5) + (body + ([0] + after)))
  {
    doc := Put32(|body| + 5) + body + [0] + after;
    assert doc == Put32(|body| + 5) + (body + ([0] + after));
  }

  // ---------------------------------------------------------------- what the parsers report, in document terms

  /** The last string element of that name. */
  function LastString(es: seq<Element>, name: seq<Byte>, default: seq<Byte>): seq<Byte> {
    if es == [] then default
    else
      LastString(es[1..], name,
        if es[0].value.Text? && es[0].value.typ == 0x02 && es[0].name == name then es[0].value.text else default)
  }

  function SeeElement(l: Login, e: Element): Login {
    if e.name == SASL_START || e.name == SASL_CONTINUE then
      if Tag(e.value) == 0x10 then l.(isAuth := true, cmd := e.name) else l
    else if e.name == PAYLOAD && e.value.Binary? && e.value.subtype == 0 then SeeScram(l, ParseScram(e.value.data))
    else l
  }

  function SeeElements(l: Login, es: seq<Element>): Login
    decreases |es|
  {
    if es == [] then l else SeeElements(SeeElement(l, es[0]), es[1..])
  }

  lemma TextLocated(doc: seq<Byte>, e: Element, v: Visit)
    requires LocatedOne(doc, e, v) && Supported(e.value) && v.typ == 0x02 && SkipValue(doc, v.at, v.typ).Some?
    requires |EncodeValue(e.value)| < WORD
    ensures e.value.Text? && TextAt(doc, v.at) == e.value.text
  {
    var text := e.value.text;
    assert EncodeValue(e.value) == Put32(|text| + 1) + (text + [0]);
    StandsPrefix(doc, v.at, Put32(|text| + 1), text + [0]);
    StandsPrefix(doc, v.at + 4, text, [0]);
    StandsWord(doc, v.at, |text| + 1);
  }

  lemma DataLocated(doc: seq<Byte>, e: Element, v: Visit)
    requires LocatedOne(doc, e, v) && Supported(e.value) && v.typ == 0x05 && SkipValue(doc, v.at, v.typ).Some?
    requires |EncodeValue(e.value)| < WORD
    ensures e.value.Binary? && DataAt(doc, v.at) == e.value.data && doc[v.at + 4] == e.value.subtype
  {
    var data, sub := e.value.data, e.value.subtype;
    assert EncodeValue(e.value) == Put32(|data|) + ([sub] + data);
    StandsPrefix(doc, v.at, Put32(|data|), [sub] + data);
    StandsPrefix(doc, v.at + 4, [sub], data);
    StandsWord(doc, v.at, |data|);
    ByteAt(doc, v.at + 4, sub);
  }

  ghost predicate Small(es: seq<Element>) {
    forall i :: 0 <= i < |es| ==> |EncodeValue(es[i].value)| < WORD
  }

  lemma {:induction false} SmallElements(es: seq<Element>)
    requires |EncodeElements(es)| < WORD
    ensures Small(es)
  {
    if es != [] {
      SmallElements(es[1..]);
      forall i | 0 <= i < |es| ensures |EncodeValue(es[i].value)| < WORD {
        if i > 0 { assert es[i] == es[1..][i - 1]; }
      }
    }
  }

  lemma LocatedTail(doc: seq<Byte>, es: seq<Element>, vs: seq<Visit>)
    requires Located(doc, es, vs) && es != [] && WellFormed(es) && Small(es)
    ensures Located(doc, es[1..], vs[1..]) && WellFormed(es[1..]) && Small(es[1..]) && LocatedOne(doc, es[0], vs[0])
  {
  }

  lemma {:induction false} LastTextIsLastString(doc: seq<Byte>, es: seq<Element>, vs: seq<Visit>,
                                               name: seq<Byte>, default: seq<Byte>)
    requires Located(doc, es, vs) && WellFormed(es) && Small(es)
    requires Skippable(doc, vs)
    ensures LastText(doc, vs, name, default) == LastString(es, name, default)
    decreases |es|
  {
    if es != [] {
      LocatedTail(doc, es, vs);
      if vs[0].typ == 0x02 { TextLocated(doc, es[0], vs[0]); }
      LastTextIsLastString(doc, es[1..], vs[1..], name,
        if vs[0].typ == 0x02 && vs[0].name == name then TextAt(doc, vs[0].at) else default);
    }
  }

  /** A SCRAM payload yields its last user and its last rnonce string. */
  lemma ScramOfDocument(es: seq<Element>, after: seq<Byte>)
    requires WellFormed(es) && |EncodeDoc(es)| < WORD
    ensures ParseScram(EncodeDoc(es) + after) == Scram(LastString(es, USER, []), LastString(es, RNONCE, []))
  {
    var doc := EncodeDoc(es) + after;
    WalkInvertsEncoding(es, after);
    SmallElements(es);
    LastTextIsLastString(doc, es, Elements(doc).value, USER, []);
    LastTextIsLastString(doc, es, Elements(doc).value, RNONCE, []);
  }

  lemma SeeLocated(doc: seq<Byte>, l: Login, e: Element, v: Visit)
    requires LocatedOne(doc, e, v) && Supported(e.value) && SkipValue(doc, v.at, v.typ).Some?
    requires |EncodeValue(e.value)| < WORD
    ensures See(doc, l, v) == SeeElement(l, e)
  {
    if v.typ == 0x05 { DataLocated(doc, e, v); }
  }

  lemma {:induction false} SeeAllLocated(doc: seq<Byte>, l: Login, es: seq<Element>, vs: seq<Visit>)
    requires Located(doc, es, vs) && WellFormed(es) && Small(es)
    requires Skippable(doc, vs)
    ensures SeeAll(doc, l, vs) == SeeElements(l, es)
    decreases |es|
  {
    if es != [] {
      LocatedTail(doc, es, vs);
      SeeLocated(doc, l, es[0], vs[0]);
      SeeAllLocated(doc, See(doc, l, vs[0]), es[1..], vs[1..]);
    }
  }

  /** A command document yields exactly what its elements say. */
  lemma CommandOfDocument(es: seq<Element>, after: seq<Byte>)
    requires WellFormed(es) && |EncodeDoc(es)| < WORD
    ensures ParseCommand(EncodeDoc(es) + after)
      == (if SeeElements(NO_LOGIN, es).isAuth then Some(SeeElements(NO_LOGIN, es)) else None)
  {
    var doc := EncodeDoc(es) + after;
    WalkInvertsEncoding(es, after);
    SmallElements(es);
    SeeAllLocated(doc, NO_LOGIN, es, Elements(doc).value);
  }

  /** An element that makes its document an authentication command. */
  predicate AuthElement(e: Element) {
    (e.name == SASL_START || e.name == SASL_CONTINUE) && Tag(e.value) == 0x10
  }

  /** The document is an authentication command iff some element says so. */
  lemma {:induction false} AuthExact(l: Login, es: seq<Element>)
    ensures SeeElements(l, es).isAuth <==> l.isAuth || exists e :: e in es && AuthElement(e)
    decreases |es|
  {
    if es != [] {
      assert SeeElement(l, es[0]).isAuth <==> l.isAuth || AuthElement(es[0]);
      AuthExact(SeeElement(l, es[0]), es[1..]);
      assert SeeElements(l, es) == SeeElements(SeeElement(l, es[0]), es[1..]);
      assert forall e :: e in es <==> e == es[0] || e in es[1..];
    }
  }

  /** Its command name is that of the last such element. */
  lemma {:induction false} LastAuthNames(l: Login, before: seq<Element>, e: Element, after: seq<Element>)
    requires AuthElement(e) && forall x :: x in after ==> !AuthElement(x)
    ensures SeeElements(l, before + [e] + after).cmd == e.name
    decreases |before| + |after|
  {
    var es := before + [e] + after;
    if before != [] {
      assert es[1..] == before[1..] + [e] + after;
      LastAuthNames(SeeElement(l, before[0]), before[1..], e, after);
    } else {
      assert es[1..] == after;
      NoAuthKeeps(SeeElement(l, e), after);
    }
  }

  lemma {:induction false} NoAuthKeeps(l: Login, es: seq<Element>)
    requires forall x :: x in es ==> !AuthElement(x)
    ensures SeeElements(l, es).cmd == l.cmd
    decreases |es|
  {
    if es != [] {
      assert !AuthElement(es[0]);
      assert SeeElement(l, es[0]).cmd == l.cmd;
      NoAuthKeeps(SeeElement(l, es[0]), es[1..]);
      assert SeeElements(l, es) == SeeElements(SeeElement(l, es[0]), es[1..]);
    }
  }

  /** A payload in its own subtype, which may give a user and a nonce. */
  predicate Payload(e: Element) { e.name == PAYLOAD && e.value.Binary? && e.value.subtype == 0 }

  predicate GivesUser(e: Element) { Payload(e) && ParseScram(e.value.data).user != [] }

  predicate GivesNonce(e: Element) { Payload(e) && ParseScram(e.value.data).rnonce != [] }

  predicate LastUser(es: seq<Element>, i: nat)
    requires i < |es|
  {
    GivesUser(es[i]) && forall j :: i < j < |es| ==> !GivesUser(es[j])
  }

  predicate LastNonce(es: seq<Element>, i: nat)
    requires i < |es|
  {
    GivesNonce(es[i]) && forall j :: i < j < |es| ==> !GivesNonce(es[j])
  }

  lemma PayloadIsNoCommand()
    ensures PAYLOAD != SASL_START && PAYLOAD != SASL_CONTINUE
  {
    assert |PAYLOAD| != |SASL_START| && |PAYLOAD| != |SASL_CONTINUE|;
  }

  /** One element sets the user exactly when it gives one, and the nonce likewise. */
  lemma SeesGiven(l: Login, e: Element)
    ensures SeeElement(l, e).user == if GivesUser(e) then ParseScram(e.value.data).user else l.user
    ensures SeeElement(l, e).rnonce == if GivesNonce(e) then ParseScram(e.value.data).rnonce else l.rnonce
  {
    PayloadIsNoCommand();
  }

  lemma {:induction false} UserFromLast(l: Login, es: seq<Element>)
    ensures (forall i :: 0 <= i < |es| ==> !GivesUser(es[i])) ==> SeeElements(l, es).user == l.user
    ensures forall i :: 0 <= i < |es| && LastUser(es, i) ==>
      SeeElements(l, es).user == ParseScram(es[i].value.data).user
    decreases |es|
  {
    hide SeeElement, ParseScram;
    if es != [] {
      var rest := es[1..];
      SeesGiven(l, es[0]);
      UserFromLast(SeeElement(l, es[0]), rest);
      forall i | 0 <= i < |es| && LastUser(es, i)
        ensures SeeElements(l, es).user == ParseScram(es[i].value.data).user
      {
        if i > 0 {
          assert rest[i - 1] == es[i] && LastUser(rest, i - 1);
        } else {
          assert forall j :: 0 <= j < |rest| ==> rest[j] == es[j + 1];
        }
      }
    }
  }

  lemma {:induction false} NonceFromLast(l: Login, es: seq<Element>)
    ensures (forall i :: 0 <= i < |es| ==> !GivesNonce(es[i])) ==> SeeElements(l, es).rnonce == l.rnonce
    ensures forall i :: 0 <= i < |es| && LastNonce(es, i) ==>
      SeeElements(l, es).rnonce == ParseScram(es[i].value.data).rnonce
    decreases |es|
  {
    hide SeeElement, ParseScram;
    if es != [] {
      var rest := es[1..];
      SeesGiven(l, es[0]);
      NonceFromLast(SeeElement(l, es[0]), rest);
      forall i | 0 <= i < |es| && LastNonce(es, i)
        ensures SeeElements(l, es).rnonce == ParseScram(es[i].value.data).rnonce
      {
        if i > 0 {
          assert rest[i - 1] == es[i] && LastNonce(rest, i - 1);
        } else {
          assert forall j :: 0 <= j < |rest| ==> rest[j] == es[j + 1];
        }
      }
    }
  }

  /** A login has the user that the last payload to give one gives, and none if no payload does; and its
      nonce likewise, whichever payload gave the user. */
  lemma LoginOfPayloads(es: seq<Element>)
    ensures (forall i :: 0 <= i < |es| ==> !GivesUser(es[i])) ==> SeeElements(NO_LOGIN, es).user == []
    ensures (forall i :: 0 <= i < |es| ==> !GivesNonce(es[i])) ==> SeeElements(NO_LOGIN, es).rnonce == []
    ensures forall i :: 0 <= i < |es| && LastUser(es, i) ==>
      SeeElements(NO_LOGIN, es).user == ParseScram(es[i].value.data).user
    ensures forall i :: 0 <= i < |es| && LastNonce(es, i) ==>
      SeeElements(NO_LOGIN, es).rnonce == ParseScram(es[i].value.data).rnonce
  {
    UserFromLast(NO_LOGIN, es);
    NonceFromLast(NO_LOGIN, es);
  }

  /** Spelled out for a payload that encodes a document: its last user string and its last rnonce string
      are given, unless empty, and become the user and the nonce of the login. */
  lemma PayloadNamesLogin(es: seq<Element>, i: nat, inner: seq<Element>, tail: seq<Byte>)
    requires i < |es| && Payload(es[i]) && es[i].value.data == EncodeDoc(inner) + tail
    requires WellFormed(inner) && |EncodeDoc(inner)| < WORD
    ensures GivesUser(es[i]) <==> LastString(inner, USER, []) != []
    ensures GivesNonce(es[i]) <==> LastString(inner, RNONCE, []) != []
    ensures LastUser(es, i) ==> SeeElements(NO_LOGIN, es).user == LastString(inner, USER, [])
    ensures LastNonce(es, i) ==> SeeElements(NO_LOGIN, es).rnonce == LastString(inner, RNONCE, [])
  {
    ScramOfDocument(inner, tail);
    hide SeeElements, EncodeDoc, LastString;
    LoginOfPayloads(es);
  }

  predicate LastStringAt(es: seq<Element>, i: nat, name: seq<Byte>)
    requires i < |es|
  {
    IsString(es[i], name) && forall j :: i < j < |es| ==> !IsString(es[j], name)
  }

  /** The last string of a name is that of the last string element so named, or the default. */
  lemma {:induction false} LastStringIsLast(es: seq<Element>, name: seq<Byte>, default: seq<Byte>)
    ensures (forall i :: 0 <= i < |es| ==> !IsString(es[i], name)) ==> LastString(es, name, default) == default
    ensures forall i :: 0 <= i < |es| && LastStringAt(es, i, name) ==>
      LastString(es, name, default) == es[i].value.text
    decreases |es|
  {
    if es != [] {
      var rest := es[1..];
      LastStringIsLast(rest, name, if IsString(es[0], name) then es[0].value.text else default);
      forall i | 0 <= i < |es| && LastStringAt(es, i, name)
        ensures LastString(es, name, default) == es[i].value.text
      {
        if i > 0 {
          assert rest[i - 1] == es[i] && LastStringAt(rest, i - 1, name);
        } else {
          assert forall j :: 0 <= j < |rest| ==> rest[j] == es[j + 1];
        }
      }
    }
  }

  predicate IsString(e: Element, name: seq<Byte>) { e.name == name && e.value.Text? && e.value.typ == 0x02 }

  // ---------------------------------------------------------------- the reply

  const OK: seq<Byte> := Ascii("ok")
  const ERRMSG: seq<Byte> := Ascii("errmsg")

  /** The refusal {ok: 0, errmsg: text} as a document. */
  function Refusal(errmsg: seq<Byte>): seq<Element> {
    [Element(OK, Fixed(0x10, [0, 0, 0, 0])), Element(ERRMSG, Text(0x02, errmsg))]
  }

  lemma NoNul(s: string)
    requires forall i :: 0 <= i < |s| ==> 0 < s[i] as int < 256
    ensures 0 !in Ascii(s)
  {
  }

  /** The hand-assembled bytes are the encoding of the refusal. */
  lemma AuthFailIsRefusal(errmsg: seq<Byte>)
    ensures BuildAuthFail(errmsg) == EncodeDoc(Refusal(errmsg)) && WellFormed(Refusal(errmsg))
    ensures |BuildAuthFail(errmsg)| == 26 + |errmsg|
  {
    NoNul("ok");
    NoNul("errmsg");
    var e0, e1 := Refusal(errmsg)[0], Refusal(errmsg)[1];
    var first := [0x10] + OK + [0] + [0, 0, 0, 0];
    var second := [0x02] + ERRMSG + [0] + (Put32(|errmsg| + 1) + errmsg + [0]);
    assert EncodeElement(e0) == first && EncodeElement(e1) == second;
    EncodeTwo(e0, e1);
    hide EncodeElements, EncodeElement, EncodeValue, Put32, Ascii;
    var word := Put32(26 + |errmsg|);
    FlattenFirst(word, [0x10], OK, [0], [0, 0, 0, 0]);
    FlattenSecond(word + first, [0x02], ERRMSG, [0], Put32(|errmsg| + 1), errmsg, [0]);
    Regroup(word, first, second);
  }

  lemma EncodeTwo(a: Element, b: Element)
    ensures EncodeElements([a, b]) == EncodeElement(a) + EncodeElement(b)
  {
    assert [a, b][1..] == [b] && [b][1..] == [];
    assert EncodeElements([b]) == EncodeElement(b) + EncodeElements([]);
    assert EncodeElements([a, b]) == EncodeElement(a) + EncodeElements([b]);
  }

  lemma FlattenFirst(w: seq<Byte>, a: seq<Byte>, b: seq<Byte>, c: seq<Byte>, d: seq<Byte>)
    ensures w + a + b + c + d == w + (a + b + c + d)
  {
  }

  lemma FlattenSecond(w: seq<Byte>, a: seq<Byte>, b: seq<Byte>, c: seq<Byte>, d: seq<Byte>, e: seq<Byte>, f: seq<Byte>)
    ensures w + a + b + c + d + e + f == w + (a + b + c + (d + e + f))
  {
  }

  /** The reply, read back by the same framing and the same walker: one message answering the request,
      of exactly the stated length, whose document is the refusal. */
  lemma ReplyReadsBack(errmsg: seq<Byte>, requestId: nat, after: seq<Byte>)
    requires requestId < WORD && 47 + |errmsg| <= MAX_MESSAGE
    ensures var wire := WriteMsg(BuildReply(errmsg), requestId);
      var read := ReadMessage(wire + after);
      && |wire| == 47 + |errmsg| && Le32(wire, 0) == |wire|
      && read.Some? && read.value.1 == after
      && var m := read.value.0;
         m.responseTo == requestId && m.opCode == OP_MSG
         && CommandDoc(m) == Some(EncodeDoc(Refusal(errmsg)))
  {
    AuthFailIsRefusal(errmsg);
    var doc := BuildAuthFail(errmsg);
    var msg := BuildReply(errmsg);
    assert msg[16..] == doc;
    var zero: seq<Byte> := [0, 0, 0, 0];
    var wire := WriteMsg(msg, requestId);
    HeaderReads(|msg| + 5, 0, requestId, OP_MSG, zero + [0] + doc, after);
    ZeroWord();
    assert wire == Header(|msg| + 5, 0, requestId, OP_MSG) + (zero + [0] + doc);
    assert (zero + [0] + doc)[5..] == doc;
    StandsHead(wire, Put32(|msg| + 5));
    StandsWord(wire, 0, |msg| + 5);
  }

  lemma StandsHead(wire: seq<Byte>, part: seq<Byte>)
    requires part <= wire
    ensures Stands(wire, 0, part)
  {
  }

  lemma ZeroWord()
    ensures Put32(0) == [0, 0, 0, 0]
  {
  }

  function Header(length: nat, requestId: nat, responseTo: nat, opCode: nat): (h: seq<Byte>)
    ensures |h| == 16
  {
    Put32(length) + Put32(requestId) + Put32(responseTo) + Put32(opCode)
  }

  lemma FlattenFour(a: seq<Byte>, b: seq<Byte>, c: seq<Byte>, d: seq<Byte>, e: seq<Byte>, f: seq<Byte>)
    ensures a + b + c + d + e + f == a + (b + (c + (d + (e + f))))
  {
  }

  /** A header in front of a body of the length it states reads back, whatever follows. */
  lemma HeaderReads(length: nat, requestId: nat, responseTo: nat, opCode: nat, body: seq<Byte>, after: seq<Byte>)
    requires length == 16 + |body| <= MAX_MESSAGE && requestId < WORD && responseTo < WORD && opCode < WORD
    ensures ReadMessage(Header(length, requestId, responseTo, opCode) + body + after)
      == Some((Message(requestId, responseTo, opCode, body), after))
  {
    var h := Header(length, requestId, responseTo, opCode);
    var stream := h + body + after;
    var a, b, c, d := Put32(length), Put32(requestId), Put32(responseTo), Put32(opCode);
    FlattenFour(a, b, c, d, body, after);
    hide Put32, Le32;
    StandsHead(stream, a + (b + (c + (d + (body + after)))));
    StandsPrefix(stream, 0, a, b + (c + (d + (body + after))));
    StandsPrefix(stream, 4, b, c + (d + (body + after)));
    StandsPrefix(stream, 8, c, d + (body + after));
    StandsPrefix(stream, 12, d, body + after);
    StandsPrefix(stream, 16, body, after);
    StandsWord(stream, 0, length);
    StandsWord(stream, 4, requestId);
    StandsWord(stream, 8, responseTo);
    StandsWord(stream, 12, opCode);
    assert stream[length..] == after;
  }

  // ---------------------------------------------------------------- a whole connection

  /** A request as a client sends it: OP_MSG, or the older OP_QUERY on a collection. */
  datatype Request =
    | Msg(requestId: nat, flags: nat, es: seq<Element>, tail: seq<Byte>)
    | Query(requestId: nat, flags: nat, collection: seq<Byte>, skip: nat, limit: nat, es: seq<Element>, tail: seq<Byte>)

  function Body(q: Request): seq<Byte> {
    match q
    case Msg(_, flags, es, tail) => Put32(flags) + [0] + (EncodeDoc(es) + tail)
    case Query(_, flags, collection, skip, limit, es, tail) =>
      Put32(flags) + collection + [0] + Put32(skip) + Put32(limit) + (EncodeDoc(es) + tail)
  }

  function Code(q: Request): nat { if q.Msg? then OP_MSG else OP_QUERY }

  function EncodeRequest(q: Request): seq<Byte> {
    Header(16 + |Body(q)|, q.requestId, 0, Code(q)) + Body(q)
  }

  predicate Sendable(q: Request) {
    && q.requestId < WORD && 16 + |Body(q)| <= MAX_MESSAGE && WellFormed(q.es)
    && (q.Query? ==> 0 !in q.collection)
  }

  lemma BodyCarriesDoc(q: Request)
    requires Sendable(q)
    ensures CommandDoc(Message(q.requestId, 0, Code(q), Body(q))) == Some(EncodeDoc(q.es) + q.tail)
    ensures |EncodeDoc(q.es)| < WORD
  {
    var rest := EncodeDoc(q.es) + q.tail;
    match q
    case Msg(_, flags, es, tail) => assert Body(q)[5..] == rest;
    case Query(_, flags, collection, skip, limit, es, tail) =>
      hide EncodeDoc;
      QueryCarriesDoc(Put32(flags), collection, Put32(skip), Put32(limit), rest, q.requestId);
  }

  lemma QueryCarriesDoc(a: seq<Byte>, name: seq<Byte>, b: seq<Byte>, c: seq<Byte>, rest: seq<Byte>, requestId: nat)
    requires |a| == |b| == |c| == 4 && 0 !in name && |rest| >= 4
    ensures CommandDoc(Message(requestId, 0, OP_QUERY, a + name + [0] + b + c + rest)) == Some(rest)
  {
    var body, n := a + name + [0] + b + c + rest, 4 + |name|;
    QueryParts(a, name, b, c, rest);
    StandsPrefix(body, 0, a, name + ([0] + (b + c + rest)));
    StandsPrefix(body, 4, name, [0] + (b + c + rest));
    StandsPrefix(body, n, [0], b + c + rest);
    hide Stands, ToNul;
    ByteAt(body, n, 0);
    NulAt(body, |body|, 4, name);
    assert body[n + 9..] == rest;
  }

  lemma QueryParts(a: seq<Byte>, name: seq<Byte>, b: seq<Byte>, c: seq<Byte>, rest: seq<Byte>)
    ensures Stands(a + name + [0] + b + c + rest, 0, a + (name + ([0] + (b + c + rest))))
  {
    assert a + name + [0] + b + c + rest == a + (name + ([0] + (b + c + rest)));
  }

  /** Serving one request in document terms. */
  function ServeRequest(s: Session, q: Request): Session {
    var l := SeeElements(NO_LOGIN, q.es);
    if !l.isAuth then s
    else
      Session(if |s.replies| < CREDS_PER_CONN then s.logins + [l] else s.logins,
              s.replies + [WriteMsg(BuildReply(Ascii("Authentication failed")), q.requestId)])
  }

  function ServeRequests(s: Session, qs: seq<Request>): Session
    decreases |qs|
  {
    if qs == [] then s else ServeRequests(ServeRequest(s, qs[0]), qs[1..])
  }

  function EncodeRequests(qs: seq<Request>): seq<Byte> {
    if qs == [] then [] else EncodeRequest(qs[0]) + EncodeRequests(qs[1..])
  }

  lemma HandleOne(s: Session, stream: seq<Byte>, m: Message, after: seq<Byte>)
    requires ReadMessage(stream) == Some((m, after))
    ensures Handle(s, stream) == Handle(Serve(s, m), after)
  {
  }

  lemma ServeOne(s: Session, q: Request)
    requires Sendable(q)
    ensures Serve(s, Message(q.requestId, 0, Code(q), Body(q))) == ServeRequest(s, q)
  {
    BodyCarriesDoc(q);
    CommandOfDocument(q.es, q.tail);
    hide Sendable, Body, Ascii, ParseCommand, CommandDoc, EncodeDoc, WriteMsg, BuildReply, SeeElements;
  }

  lemma OneRequest(s: Session, q: Request, after: seq<Byte>)
    requires Sendable(q)
    ensures Handle(s, EncodeRequest(q) + after) == Handle(ServeRequest(s, q), after)
  {
    HeaderReads(16 + |Body(q)|, q.requestId, 0, Code(q), Body(q), after);
    ServeOne(s, q);
    hide Handle, Serve, ReadMessage, Header, Body, ServeRequest;
    HandleOne(s, EncodeRequest(q) + after, Message(q.requestId, 0, Code(q), Body(q)), after);
  }

  /** A pipelined connection: however many requests are sent back to back, each is served as its
      document says, in order, and nothing is lost or read twice between them. */
  lemma {:induction false} ConnectionServesAll(s: Session, qs: seq<Request>, after: seq<Byte>)
    requires forall i :: 0 <= i < |qs| ==> Sendable(qs[i])
    ensures Handle(s, EncodeRequests(qs) + after) == Handle(ServeRequests(s, qs), after)
    decreases |qs|
  {
    if qs == [] {
      assert [] + after == after;
    } else {
      var rest := EncodeRequests(qs[1..]) + after;
      assert EncodeRequests(qs) + after == EncodeRequest(qs[0]) + rest;
      OneRequest(s, qs[0], rest);
      ConnectionServesAll(ServeRequest(s, qs[0]), qs[1..], after);
    }
  }

  /** The authentication commands among the requests. */
  function AuthRequests(qs: seq<Request>): seq<Request> {
    if qs == [] then []
    else (if SeeElements(NO_LOGIN, qs[0].es).isAuth then [qs[0]] else []) + AuthRequests(qs[1..])
  }

  /** The session after serving these authentication commands: the first ten logins, every reply. */
  function SessionOf(qs: seq<Request>): Session {
    var n := if |qs| < CREDS_PER_CONN then |qs| else CREDS_PER_CONN;
    Session(seq(n, (i: int) requires 0 <= i < n => SeeElements(NO_LOGIN, qs[i].es)),
            seq(|qs|, (i: int) requires 0 <= i < |qs| =>
              WriteMsg(BuildReply(Ascii("Authentication failed")), qs[i].requestId)))
  }

  lemma ServesAuth(done: seq<Request>, q: Request)
    ensures ServeRequest(SessionOf(done), q)
      == SessionOf(done + if SeeElements(NO_LOGIN, q.es).isAuth then [q] else [])
  {
    hide WriteMsg, BuildReply, SeeElements;
    var r := ServeRequest(SessionOf(done), q);
    if SeeElements(NO_LOGIN, q.es).isAuth {
      var t := SessionOf(done + [q]);
      assert r.replies == t.replies;
      assert r.logins == t.logins;
    } else {
      assert done + [] == done;
    }
  }

  lemma {:induction false} ServesRequests(done: seq<Request>, qs: seq<Request>)
    ensures ServeRequests(SessionOf(done), qs) == SessionOf(done + AuthRequests(qs))
    decreases |qs|
  {
    if qs == [] {
      assert done + [] == done;
    } else {
      var first := if SeeElements(NO_LOGIN, qs[0].es).isAuth then [qs[0]] else [];
      ServesAuth(done, qs[0]);
      ServesRequests(done + first, qs[1..]);
      Regroup(done, first, AuthRequests(qs[1..]));
    }
  }

  /** A connection on which requests are sent, and then nothing that reads as one, records the first ten
      authentication commands and answers every one, in order. */
  lemma ConnectionRecords(qs: seq<Request>, after: seq<Byte>)
    requires (forall i :: 0 <= i < |qs| ==> Sendable(qs[i])) && ReadMessage(after).None?
    ensures Handle(Session([], []), EncodeRequests(qs) + after) == SessionOf(AuthRequests(qs))
  {
    hide Sendable, SeeElements, ReadMessage, EncodeRequests, AuthRequests, WriteMsg, BuildReply;
    ConnectionServesAll(Session([], []), qs, after);
    ServesRequests([], qs);
    assert SessionOf([]) == Session([], []);
    assert [] + AuthRequests(qs) == AuthRequests(qs);
    HandleNone(SessionOf(AuthRequests(qs)), after);
  }

  lemma HandleNone(s: Session, stream: seq<Byte>)
    requires ReadMessage(stream).None?
    ensures Handle(s, stream) == s
  {
  }
}
