/**
 The canonical bytes a sender signs (`blockrock-core/src/transaction.rs`), an independent decoder for
 them, and the proof that the two are inverse: equal signed bytes mean equal transactions.
 */
module Wire {
  import opened Prelude

  /** The ASCII bytes of "blockrock.transaction.v1". */
  const TRANSACTION_DOMAIN: seq<byte> :=
    [98, 108, 111, 99, 107, 114, 111, 99, 107, 46,
     116, 114, 97, 110, 115, 97, 99, 116, 105, 111, 110, 46, 118, 49]

  const PAYLOAD_TAG: byte := 1

  /** What a transaction commits to: everything but its id and its signature. */
  datatype Content = Content(sender: Text, receiver: Text, amount: u64, nonce: u64, payload: Option<Text>)

  /** The `width` low-order bytes of `x`, least significant first (`u64::to_le_bytes` at width 8). */
  function LittleEndian(x: nat, width: nat): (b: seq<byte>)
    ensures |b| == width
  {
    if width == 0 then [] else [(x % 256) as byte] + LittleEndian(x / 256, width - 1)
  }

  /** The number a little-endian byte string denotes. */
  function FromLittleEndian(b: seq<byte>): nat {
    if b == [] then 0 else b[0] as int + 256 * FromLittleEndian(b[1..])
  }

  function Pow256(width: nat): nat {
    if width == 0 then 1 else 256 * Pow256(width - 1)
  }

  lemma {:induction false} LittleEndianRoundTrip(x: nat, width: nat)
    requires x < Pow256(width)
    ensures FromLittleEndian(LittleEndian(x, width)) == x
  {
    if width > 0 {
      assert x / 256 < Pow256(width - 1);
      LittleEndianRoundTrip(x / 256, width - 1);
      assert LittleEndian(x, width)[1..] == LittleEndian(x / 256, width - 1);
    }
  }

  lemma U64RoundTrip(x: u64)
    ensures FromLittleEndian(LittleEndian(x, 8)) == x
  {
    assert Pow256(3) == 0x100_0000;
    assert Pow256(6) == 0x1_0000_0000_0000;
    assert Pow256(8) == TWO_TO_THE_64;
    LittleEndianRoundTrip(x, 8);
  }

  /** A length-prefixed field. */
  function Field(s: Text): seq<byte> {
    LittleEndian(|s|, 8) + s
  }

  function PayloadBytes(payload: Option<Text>): seq<byte> {
    match payload
    case None => []
    case Some(data) => [PAYLOAD_TAG] + Field(data)
  }

  function SigningPayload(c: Content): seq<byte> {
    TRANSACTION_DOMAIN + Field(c.sender) + Field(c.receiver)
    + LittleEndian(c.amount, 8) + LittleEndian(c.nonce, 8) + PayloadBytes(c.payload)
  }

  /** The byte vector as it is filled, field by field. */
  method BuildSigningPayload(sender: Text, receiver: Text, amount: u64, nonce: u64, data: Option<Text>)
    returns (payload: seq<byte>)
    ensures payload == SigningPayload(Content(sender, receiver, amount, nonce, data))
  {
    payload := TRANSACTION_DOMAIN;
    var fields := [sender, receiver];
    for i := 0 to |fields|
      invariant i == 0 ==> payload == TRANSACTION_DOMAIN
      invariant i == 1 ==> payload == TRANSACTION_DOMAIN + Field(sender)
      invariant i == 2 ==> payload == TRANSACTION_DOMAIN + Field(sender) + Field(receiver)
    {
      ghost var before := payload;
      payload := payload + LittleEndian(|fields[i]|, 8);
      payload := payload + fields[i];
      assert payload == before + Field(fields[i]);
    }
    payload := payload + LittleEndian(amount, 8);
    payload := payload + LittleEndian(nonce, 8);
    if data.Some? {
      ghost var before := payload;
      payload := payload + [PAYLOAD_TAG];
      payload := payload + LittleEndian(|data.value|, 8);
      payload := payload + data.value;
      assert payload == before + PayloadBytes(data);
    }
  }

  // ----- The decoder: written from the byte format alone, never from the encoder. -----

  /** A value read off the front of a byte string, with the bytes that follow it. */
  datatype Read<+T> = Read(value: T, rest: seq<byte>)

  function ReadU64(b: seq<byte>): (r: Option<Read<nat>>) {
    if |b| < 8 then None else Some(Read(FromLittleEndian(b[..8]), b[8..]))
  }

  function ReadField(b: seq<byte>): (r: Option<Read<Text>>) {
    match ReadU64(b)
    case None => None
    case Some(Read(length, rest)) =>
      if |rest| < length || length >= 0x8000_0000_0000_0000 then None
      else Some(Read(rest[..length], rest[length..]))
  }

  function ReadPayload(b: seq<byte>): (r: Option<Option<Text>>) {
    if b == [] then Some(None)
    else if b[0] != PAYLOAD_TAG then None
    else
      match ReadField(b[1..])
      case None => None
      case Some(Read(data, rest)) => if rest == [] then Some(Some(data)) else None
  }

  function Decode(b: seq<byte>): (r: Option<Content>) {
    if !(TRANSACTION_DOMAIN <= b) then None
    else
      match ReadField(b[|TRANSACTION_DOMAIN|..])
      case None => None
      case Some(Read(sender, b1)) =>
        match ReadField(b1)
        case None => None
        case Some(Read(receiver, b2)) =>
          match ReadU64(b2)
          case None => None
          case Some(Read(amount, b3)) =>
            match ReadU64(b3)
            case None => None
            case Some(Read(nonce, b4)) =>
              match ReadPayload(b4)
              case None => None
              case Some(payload) =>
                if amount < TWO_TO_THE_64 && nonce < TWO_TO_THE_64
                then Some(Content(sender, receiver, amount, nonce, payload))
                else None
  }

  lemma ReadU64Inverts(x: u64, rest: seq<byte>)
    ensures ReadU64(LittleEndian(x, 8) + rest) == Some(Read(x, rest))
  {
    var b := LittleEndian(x, 8) + rest;
    assert b[..8] == LittleEndian(x, 8) && b[8..] == rest;
    U64RoundTrip(x);
  }

  lemma ReadFieldInverts(s: Text, rest: seq<byte>)
    ensures ReadField(Field(s) + rest) == Some(Read(s, rest))
  {
    var after := s + rest;
    assert Field(s) + rest == LittleEndian(|s|, 8) + after;
    ReadU64Inverts(|s|, after);
    assert after[..|s|] == s && after[|s|..] == rest;
  }

  lemma ReadPayloadInverts(p: Option<Text>)
    ensures ReadPayload(PayloadBytes(p)) == Some(p)
  {
    match p
    case None =>
    case Some(data) =>
      var b := PayloadBytes(p);
      assert b[1..] == Field(data) + [];
      ReadFieldInverts(data, []);
  }

  /** Decoding inverts encoding, `None` and `Some("")` included. */
  lemma {:induction false} DecodeInvertsSigningPayload(c: Content)
    ensures Decode(SigningPayload(c)) == Some(c)
  {
    var b4 := PayloadBytes(c.payload);
    var b3 := LittleEndian(c.nonce, 8) + b4;
    var b2 := LittleEndian(c.amount, 8) + b3;
    var b1 := Field(c.receiver) + b2;
    var b0 := Field(c.sender) + b1;
    var b := SigningPayload(c);
    assert b == TRANSACTION_DOMAIN + b0;
    assert b[|TRANSACTION_DOMAIN|..] == b0;
    ReadFieldInverts(c.sender, b1);
    ReadFieldInverts(c.receiver, b2);
    ReadU64Inverts(c.amount, b3);
    ReadU64Inverts(c.nonce, b4);
    ReadPayloadInverts(c.payload);
  }

  /** No two transactions share their signed bytes. */
  lemma SigningPayloadInjective(c: Content, d: Content)
    requires SigningPayload(c) == SigningPayload(d)
    ensures c == d
  {
    DecodeInvertsSigningPayload(c);
    DecodeInvertsSigningPayload(d);
  }

  /** A transaction without payload signs exactly what it signed before payloads existed, and every
      payload strictly extends those bytes. */
  lemma PayloadOnlyAppends(c: Content)
    ensures SigningPayload(c.(payload := None)) <= SigningPayload(c)
    ensures SigningPayload(c.(payload := None)) == SigningPayload(c) <==> c.payload == None
  {
    var bare := SigningPayload(c.(payload := None));
    var extra := PayloadBytes(c.payload);
    assert SigningPayload(c) == bare + extra;
    assert |extra| == 0 <==> c.payload == None;
    assert |bare + extra| == |bare| + |extra|;
    assert extra == [] ==> bare + extra == bare;
  }
}
