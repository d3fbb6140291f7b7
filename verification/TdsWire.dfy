/** The TDS packets of the honeypot and the password field of a LOGIN7 record (internal/honeypot/mssql.go). */
module TdsWire {
  import opened Wrappers
  import opened Bytes

  // ---------------------------------------------------------------- the password field

  /** A UTF-16 code unit. */
  type Unit = bv16

  /** Clients swap the halves of each byte and then flip it with 0xA5. */
  function Obscure(b: bv8): bv8 {
    ((b << 4) | (b >> 4)) ^ 0xA5
  }

  /** The server flips first and then swaps. */
  function Reveal(b: bv8): bv8 {
    var x := b ^ 0xA5;
    ((x & 0x0F) << 4) | ((x & 0xF0) >> 4)
  }

  lemma RevealObscure(b: bv8)
    ensures Reveal(Obscure(b)) == b
  {
  }

  lemma ObscureReveal(b: bv8)
    ensures Obscure(Reveal(b)) == b
  {
  }

  function Low(u: Unit): bv8 { (u & 0xFF) as bv8 }

  function High(u: Unit): bv8 { (u >> 8) as bv8 }

  function Join(low: bv8, high: bv8): Unit {
    (low as bv16) | ((high as bv16) << 8)
  }

  lemma JoinHalves(u: Unit)
    ensures Join(Low(u), High(u)) == u
  {
  }

  lemma HalvesOfJoin(low: bv8, high: bv8)
    ensures Low(Join(low, high)) == low && High(Join(low, high)) == high
  {
  }

  /** Printable ASCII or a tab. */
  predicate Plain(u: Unit) {
    u == 9 || 0x20 <= u <= 0x7E
  }

  /** What a client sends for a password: little-endian UTF-16, each byte obscured. */
  function Obfuscated(p: seq<Unit>): (b: seq<bv8>)
    ensures |b| == 2 * |p|
  {
    if p == [] then [] else [Obscure(Low(p[0])), Obscure(High(p[0]))] + Obfuscated(p[1..])
  }

  /** The code units of a field of even length. */
  function Units(b: seq<bv8>): (u: seq<Unit>)
    requires |b| % 2 == 0
    ensures |u| == |b| / 2
  {
    if b == [] then [] else [Join(Reveal(b[0]), Reveal(b[1]))] + Units(b[2..])
  }

  /** A known field: the password admin as clients send it. */
  lemma KnownField()
    ensures Obfuscated([0x61, 0x64, 0x6D, 0x69, 0x6E]) ==
      [0xB3, 0xA5, 0xE3, 0xA5, 0x73, 0xA5, 0x33, 0xA5, 0x43, 0xA5]
  {
    KnownUnit(0x61, 0xB3);
    KnownUnit(0x64, 0xE3);
    KnownUnit(0x6D, 0x73);
    KnownUnit(0x69, 0x33);
    KnownUnit(0x6E, 0x43);
    hide Obscure, Low, High;
    FieldSnoc([], 0x61, 0xB3);
    FieldSnoc([0x61], 0x64, 0xE3);
    FieldSnoc([0x61, 0x64], 0x6D, 0x73);
    FieldSnoc([0x61, 0x64, 0x6D], 0x69, 0x33);
    FieldSnoc([0x61, 0x64, 0x6D, 0x69], 0x6E, 0x43);
  }

  lemma KnownUnit(u: Unit, b: bv8)
    requires u <= 0xFF && b == (((u as bv8) << 4) | ((u as bv8) >> 4)) ^ 0xA5
    ensures Obscure(Low(u)) == b && Obscure(High(u)) == 0xA5
  {
  }

  lemma {:induction false} FieldSnoc(p: seq<Unit>, u: Unit, b: bv8)
    requires Obscure(Low(u)) == b && Obscure(High(u)) == 0xA5
    ensures Obfuscated(p + [u]) == Obfuscated(p) + [b, 0xA5]
  {
    if p == [] {
      assert [u][1..] == [] && [] + [u] == [u];
    } else {
      FieldSnoc(p[1..], u, b);
      assert (p + [u])[1..] == p[1..] + [u];
    }
  }

  predicate AllPlain(p: seq<Unit>) { forall i :: 0 <= i < |p| ==> Plain(p[i]) }

  function Recovered(b: seq<bv8>): Option<seq<Unit>> {
    if b != [] && |b| % 2 == 0 && AllPlain(Units(b)) then Some(Units(b)) else None
  }

  lemma {:induction false} UnitsOfObfuscated(p: seq<Unit>)
    ensures Units(Obfuscated(p)) == p
  {
    if p != [] {
      UnitsOfObfuscated(p[1..]);
      var b := Obfuscated(p);
      RevealObscure(Low(p[0]));
      RevealObscure(High(p[0]));
      JoinHalves(p[0]);
      assert b[2..] == Obfuscated(p[1..]);
    }
  }

  lemma {:induction false} ObfuscatedUnits(b: seq<bv8>)
    requires |b| % 2 == 0
    ensures Obfuscated(Units(b)) == b
  {
    if b != [] {
      ObfuscatedUnits(b[2..]);
      var u := Units(b);
      HalvesOfJoin(Reveal(b[0]), Reveal(b[1]));
      ObscureReveal(b[0]);
      ObscureReveal(b[1]);
      assert u[1..] == Units(b[2..]);
      assert b == [b[0], b[1]] + b[2..];
    }
  }

  /** The recovery succeeds exactly on what a client sends for a non-empty plain password, and gives that password. */
  lemma RecoversExactly(b: seq<bv8>, p: seq<Unit>)
    ensures Recovered(b) == Some(p) <==> p != [] && AllPlain(p) && b == Obfuscated(p)
  {
    UnitsOfObfuscated(p);
    if Recovered(b) == Some(p) {
      ObfuscatedUnits(b);
    }
  }

  lemma {:induction false} UnitsAt(b: seq<bv8>, i: nat)
    requires |b| % 2 == 0 && 2 * i < |b|
    ensures Units(b)[i] == Join(Reveal(b[2 * i]), Reveal(b[2 * i + 1]))
  {
    if i > 0 {
      UnitsAt(b[2..], i - 1);
    }
  }

  /** Two loops over two arrays: the raw bytes, then the code units. */
  method DeobfuscateTDSPassword(obf: array<bv8>) returns (password: Option<seq<Unit>>)
    ensures password == Recovered(obf[..])
  {
    hide Reveal, Join, Units;
    if obf.Length == 0 || obf.Length % 2 != 0 {
      return None;
    }
    var raw := new bv8[obf.Length];
    var i := 0;
    while i < obf.Length
      invariant i <= obf.Length
      invariant forall j :: 0 <= j < i ==> raw[j] == Reveal(obf[j])
    {
      raw[i] := Reveal(obf[i]);
      i := i + 1;
    }
    var u := new Unit[raw.Length / 2];
    i := 0;
    while i < raw.Length
      invariant i <= raw.Length && i % 2 == 0
      invariant forall j :: 0 <= j < raw.Length ==> raw[j] == Reveal(obf[j])
      invariant forall j :: 0 <= j < i / 2 ==> u[j] == Units(obf[..])[j] && Plain(u[j])
    {
      ghost var half := i / 2;
      var code := Join(raw[i], raw[i + 1]);
      assert 2 * half == i;
      UnitsAt(obf[..], half);
      assert code == Units(obf[..])[i / 2];
      if (code < 0x20 && code != 9) || code > 0x7E {
        return None;
      }
      u[i / 2] := code;
      i := i + 2;
    }
    assert u[..] == Units(obf[..]);
    return Some(u[..]);
  }

  // ---------------------------------------------------------------- packets

  const HEADER: nat := 8

  /** binary.BigEndian.Uint16 */
  function Be16(high: int, low: int): int { 0x100 * high + low }

  function WritePacket(kind: Byte, payload: seq<Byte>): seq<Byte> {
    var length := (HEADER + |payload|) % 0x1_0000;
    [kind, 1, length / 0x100, length % 0x100, 0, 0, 1, 0] + payload
  }

  /** A packet without its header but for the type, and the input left; None on a short or malformed one. */
  function ReadPacket(input: seq<Byte>): Option<(seq<Byte>, seq<Byte>)> {
    if |input| < HEADER then None else
      var length := Be16(input[2], input[3]);
      if length < HEADER || |input| < length then None
      else Some(([input[0]] + input[HEADER..length], input[length..]))
  }

  /** A packet is read back whole exactly when its length fits the two bytes of the header. */
  lemma PacketReadsBack(kind: Byte, payload: seq<Byte>, rest: seq<Byte>)
    ensures ReadPacket(WritePacket(kind, payload) + rest) == Some(([kind] + payload, rest))
      <==> |payload| <= 0x1_0000 - 1 - HEADER
  {
  }
}
