/** The buffered reader and the loops of internal/honeypot/redis.go and internal/honeypot/telnet.go. */
module RespReader {
  import opened Wrappers
  import opened Bytes
  import opened RespWire

  datatype Slice = Found | BufferFull | Failed

  /** A bufio.Reader over everything the peer sends before it closes or stalls. */
  class Reader {
    var rest: Text
    var last: Option<Byte>

    constructor (input: Text)
      ensures rest == input && last == None
    {
      rest, last := input, None;
    }

    method ReadByte() returns (b: Option<Byte>)
      modifies this
      ensures old(rest) == [] ==> b == None && rest == []
      ensures old(rest) != [] ==> b == Some(old(rest)[0]) && rest == old(rest)[1..]
      ensures last == b
    {
      if rest == [] {
        b := None;
      } else {
        b := Some(rest[0]);
        rest := rest[1..];
      }
      last := b;
    }

    method UnreadByte() returns (ok: bool)
      modifies this
      ensures ok <==> old(last).Some?
      ensures rest == if ok then [old(last).value] + old(rest) else old(rest)
      ensures last == None
    {
      ok := last.Some?;
      if ok {
        rest := [last.value] + rest;
      }
      last := None;
    }

    /** Through the first LF of what the buffer can hold, the whole buffer, or what is left. */
    method ReadSlice() returns (segment: Text, how: Slice)
      modifies this
      ensures segment + rest == old(rest)
      ensures how.Found? ==> segment != [] && segment[|segment| - 1] == LF && LF !in segment[..|segment| - 1]
      ensures !how.Found? ==> LF !in segment
      ensures |segment| <= BUFFER
      ensures how.BufferFull? ==> |segment| == BUFFER
      ensures how.Failed? ==> rest == [] && |segment| < BUFFER
    {
      last := None;
      var n := 0;
      while n < |rest| && n < BUFFER && rest[n] != LF
        invariant n <= |rest| && n <= BUFFER
        invariant LF !in rest[..n]
      {
        n := n + 1;
      }
      if n < BUFFER && n < |rest| {
        segment, how := rest[..n + 1], Found;
        assert segment[..n] == rest[..n];
      } else {
        segment, how := rest[..n], if n == BUFFER then BufferFull else Failed;
      }
      rest := rest[|segment|..];
    }

    method ReadFull(n: nat) returns (data: Option<Text>)
      modifies this
      ensures |old(rest)| >= n ==> data == Some(old(rest)[..n]) && rest == old(rest)[n..]
      ensures |old(rest)| < n ==> data == None && rest == []
    {
      last := None;
      if |rest| >= n {
        data := Some(rest[..n]);
        rest := rest[n..];
      } else {
        data, rest := None, [];
      }
    }

    /** Segment by segment, exactly the line of the specification. */
    method ReadLine() returns (line: Option<Text>)
      modifies this
      ensures Line(old(rest)).None? ==> line == None
      ensures Line(old(rest)).Some? ==> line == Some(Line(old(rest)).value.0) && rest == Line(old(rest)).value.1
    {
      var raw: Text := [];
      ghost var k := 0;
      while true
        invariant raw + rest == old(rest) && LF !in raw
        invariant |raw| == k * BUFFER && 0 <= k < 16
        decreases |rest|
      {
        var segment, how := ReadSlice();
        ghost var before := raw;
        k := k + 1;
        raw := raw + segment;
        assert raw + rest == old(rest);
        if how.BufferFull? {
          if |raw| >= MAX_LINE {
            FullLine(raw, rest);
            break;
          }
          continue;
        }
        if how.Failed? {
          if raw == [] {
            return None;
          }
          assert raw == old(rest);
          NoLf(raw);
        } else {
          FoundLine(before, segment, rest);
        }
        break;
      }
      assert raw == old(rest)[..LineEnd(old(rest))];
      var trimmed := TrimLineEnd(raw);
      var out := StripNegotiations(trimmed);
      if |out| > MAX_TEXT {
        out := out[..MAX_TEXT];
      }
      return Some(out);
    }

    method ReadRespInt() returns (n: Option<nat>)
      modifies this
      ensures Number(old(rest)).None? ==> n == None
      ensures Number(old(rest)).Some? ==> n == Some(Number(old(rest)).value.0) && rest == Number(old(rest)).value.1
    {
      var line := ReadLine();
      if line.None? {
        return None;
      }
      return Some(RespInt(line.value));
    }

    method ReadRespBulk() returns (e: Option<Text>)
      modifies this
      ensures Bulk(old(rest)).None? ==> e == None
      ensures Bulk(old(rest)).Some? ==> e == Some(Bulk(old(rest)).value.0) && rest == Bulk(old(rest)).value.1
    {
      var typ := ReadByte();
      if typ.None? {
        return None;
      }
      if typ.value != '$' as int {
        return Some([]);
      }
      var n := ReadRespInt();
      if n.None? {
        return None;
      }
      var data := ReadFull(n.value + 2);
      if data.None? {
        return None;
      }
      assert data.value[..n.value] == Number(old(rest)[1..]).value.1[..n.value];
      return Some(data.value[..n.value]);
    }

    /** The element loop. */
    method ReadElements(count: nat) returns (elements: Option<seq<Text>>)
      modifies this
      ensures Bulks(count, old(rest)).None? ==> elements == None
      ensures Bulks(count, old(rest)).Some? ==>
        elements == Some(Bulks(count, old(rest)).value.0) && rest == Bulks(count, old(rest)).value.1
    {
      hide Bulks, Bulk;
      var es: seq<Text> := [];
      var i := 0;
      while i < count
        invariant i <= count
        invariant Bulks(count, old(rest)).None? <==> Bulks(count - i, rest).None?
        invariant Bulks(count, old(rest)).Some? ==>
          && Bulks(count, old(rest)).value.0 == es + Bulks(count - i, rest).value.0
          && Bulks(count, old(rest)).value.1 == Bulks(count - i, rest).value.1
      {
        ghost var more := BulksStep(count - i, rest);
        var e := ReadRespBulk();
        if e.None? {
          return None;
        }
        Regroup(es, [e.value], more);
        es := es + [e.value];
        i := i + 1;
      }
      BulksEnd(rest);
      assert es + [] == es;
      return Some(es);
    }

    method ReadRespCommand(lib: Library) returns (c: Option<Command>)
      modifies this
      ensures ReadCommand(lib, old(rest)).None? ==> c == None
      ensures ReadCommand(lib, old(rest)).Some? ==>
        c == Some(ReadCommand(lib, old(rest)).value.0) && rest == ReadCommand(lib, old(rest)).value.1
    {
      var first := ReadByte();
      if first.None? {
        return None;
      }
      if first.value != '*' as int {
        var ok := UnreadByte();
        assert rest == old(rest);
        var line := ReadLine();
        if line.None? {
          return None;
        }
        return Some(Named(lib, Fields(lib, line.value)));
      }
      var count := ReadRespInt();
      if count.None? {
        return None;
      }
      if count.value <= 0 || count.value > MAX_ELEMENTS {
        return Some(NO_COMMAND);
      }
      var elements := ReadElements(count.value);
      if elements.None? {
        return None;
      }
      return Some(Named(lib, elements.value));
    }
  }

  lemma BulksStep(count: nat, input: Text) returns (more: seq<Text>)
    requires count > 0
    ensures Bulk(input).None? ==> Bulks(count, input).None?
    ensures Bulk(input).Some? ==>
      var r := Bulks(count - 1, Bulk(input).value.1);
      && (Bulks(count, input).None? <==> r.None?)
      && (r.Some? ==> more == r.value.0 && Bulks(count, input).value == ([Bulk(input).value.0] + more, r.value.1))
  {
    more := [];
    if Bulk(input).Some? {
      var r := Bulks(count - 1, Bulk(input).value.1);
      if r.Some? {
        more := r.value.0;
      }
    }
  }

  lemma BulksEnd(input: Text)
    ensures Bulks(0, input) == Some(([], input))
  {
  }

  /** The byte loop that drops negotiations. */
  method StripNegotiations(b: Text) returns (out: Text)
    ensures out == StripIac(b)
  {
    out := [];
    var i := 0;
    while i < |b|
      invariant out + StripIac(b[if i <= |b| then i else |b|..]) == StripIac(b)
      decreases |b| - i
    {
      StripStep(b, out, i);
      hide StripIac;
      if b[i] == IAC {
        i := i + 2;
      } else {
        out := out + [b[i]];
      }
      i := i + 1;
    }
  }

  lemma StripStep(b: Text, out: Text, i: nat)
    requires i < |b|
    ensures out + StripIac(b[i..]) ==
      if b[i] == IAC then out + StripIac(b[if i + 3 <= |b| then i + 3 else |b|..])
      else out + [b[i]] + StripIac(b[i + 1..])
  {
    var left := b[i..];
    if b[i] == IAC {
      assert |left| >= 3 ==> left[3..] == b[i + 3..];
      assert b[|b|..] == [];
    } else {
      assert left[1..] == b[i + 1..];
      assert StripIac(left) == [b[i]] + StripIac(b[i + 1..]);
      Regroup(out, [b[i]], StripIac(b[i + 1..]));
    }
  }

  lemma {:induction false} NoLf(raw: Text)
    requires LF !in raw
    ensures ThroughLf(raw) == |raw|
  {
    if raw != [] {
      NoLf(raw[1..]);
    }
  }

  lemma {:induction false} ThroughLfBeyond(raw: Text, rest: Text)
    requires LF !in raw
    ensures ThroughLf(raw + rest) == |raw| + ThroughLf(rest)
  {
    if raw == [] {
      assert raw + rest == rest;
    } else {
      assert (raw + rest)[1..] == raw[1..] + rest;
      ThroughLfBeyond(raw[1..], rest);
    }
  }

  lemma FullLine(raw: Text, rest: Text)
    requires LF !in raw && |raw| == MAX_LINE
    ensures LineEnd(raw + rest) == |raw|
  {
    ThroughLfBeyond(raw, rest);
  }

  lemma FoundLine(before: Text, segment: Text, rest: Text)
    requires LF !in before && segment != [] && segment[|segment| - 1] == LF && LF !in segment[..|segment| - 1]
    requires |before| + |segment| <= MAX_LINE
    ensures LineEnd(before + segment + rest) == |before| + |segment|
  {
    var n := |segment| - 1;
    var all := before + segment + rest;
    assert all == (before + segment[..n]) + ([LF] + rest);
    ThroughLfBeyond(before + segment[..n], [LF] + rest);
    assert ThroughLf([LF] + rest) == 1;
  }

  lemma HandleStep(lib: Library, s: Session, input: Text)
    ensures ReadCommand(lib, input).None? ==> Handle(lib, s, input) == s
    ensures ReadCommand(lib, input).Some? ==>
      var c := ReadCommand(lib, input).value;
      var next := Serve(s, c.0);
      |c.1| < |input| && Handle(lib, s, input) == if next.quit then next else Handle(lib, next, c.1)
  {
    CommandShortens(lib, input);
  }

  /** The command loop of a connection. */
  method HandleRedis(lib: Library, input: Text) returns (s: Session)
    ensures s == Handle(lib, FRESH, input)
  {
    hide ReadCommand, Serve;
    var r := new Reader(input);
    s := FRESH;
    while true
      invariant Handle(lib, FRESH, input) == Handle(lib, s, r.rest)
      decreases |r.rest|
    {
      HandleStep(lib, s, r.rest);
      var c := r.ReadRespCommand(lib);
      if c.None? {
        return;
      }
      s := Answer(s, c.value);
      if s.quit {
        return;
      }
    }
  }

  /** The switch over one command. */
  method Answer(was: Session, c: Command) returns (s: Session)
    ensures s == Serve(was, c)
  {
    assert AUTH[0] == 'A' as int && QUIT[0] == 'Q' as int && |HELLO| == 5;
    s := was.(quit := false);
    if c.name == AUTH {
      if |c.args| == 1 {
        s := Record(s, Cred([], c.args[0]));
      } else if |c.args| == 2 {
        s := Record(s, Cred(c.args[0], c.args[1]));
      } else {
        return s.(replies := s.replies + [ARITY]);
      }
      s := s.(replies := s.replies + [INVALID]);
    } else if c.name == HELLO {
      if |c.args| >= 4 && FoldsToAuth(c.args[1]) {
        s := Record(s, Cred(c.args[2], c.args[3]));
      }
      s := s.(replies := s.replies + [NO_HELLO]);
    } else if c.name == QUIT {
      s := s.(replies := s.replies + [BYE], quit := true);
    } else {
      s := s.(replies := s.replies + [UNKNOWN]);
    }
  }

  method Record(s: Session, cred: Cred) returns (r: Session)
    ensures r.creds == if s.seen < CREDS_PER_CONN then s.creds + [cred] else s.creds
    ensures r.seen == s.seen + 1 && r.replies == s.replies && r.quit == s.quit
  {
    r := s;
    if r.seen < CREDS_PER_CONN {
      r := r.(creds := r.creds + [cred]);
    }
    r := r.(seen := r.seen + 1);
  }
}
