/**
 Full decoding of ClientHello and ServerHello handshake messages (sections 4, 4.1.2 and 4.1.3 of RFC 8446).
 */
module Hello {
  import opened Wire
  import opened Items
  import opened Extensions

  datatype DecodeError =
    | HeaderTruncated
    | UnexpectedType(got: byte, want: byte)
    | BodyTruncated
    | OddCipherSuites
    | Truncated(wanted: nat)

  datatype Result<+T> = Ok(value: T) | Err(error: DecodeError) {
    predicate IsFailure() {
      Err?
    }

    function PropagateFailure<U>(): Result<U>
      requires Err?
    {
      Err(error)
    }

    function Extract(): T
      requires Ok?
    {
      value
    }
  }

  datatype DecodedExtension = DecodedExtension(extType: u16, raw: bytes, body: ExtensionBody)

  datatype ClientHello = ClientHello(
    legacyVersion: u16,
    random: bytes,
    sessionId: bytes,
    cipherSuites: seq<u16>,
    compressionMethods: bytes,
    extensions: seq<DecodedExtension>)

  datatype ServerHello = ServerHello(
    legacyVersion: u16,
    random: bytes,
    sessionIdEcho: bytes,
    cipherSuite: u16,
    compressionMethod: byte,
    extensions: seq<DecodedExtension>)

  datatype DecodedHandshake =
    | ClientHelloMessage(client: ClientHello)
    | ServerHelloMessage(server: ServerHello)
    | HelloRetryRequest(retry: ServerHello)
    | Unknown(msgType: byte, raw: bytes)

  /** The random of a HelloRetryRequest (section 4.1.3 of RFC 8446). */
  function HelloRetryRandom(): bytes {
    ([0xCF, 0x21, 0xAD, 0x74, 0xE5, 0x9A, 0x61, 0x11] + [0xBE, 0x1D, 0x8C, 0x02, 0x1E, 0x65, 0xB8, 0x91]) +
    ([0xC2, 0xA2, 0x11, 0x16, 0x7A, 0xBB, 0x8C, 0x5E] + [0x07, 0x9E, 0x09, 0xE2, 0xC8, 0xA8, 0x33, 0x9C])
  }

  // ----- extensions of a hello

  function ExtensionOf(extType: u16, body: bytes): DecodedExtension {
    var decoded := BodyOf(extType, body);
    DecodedExtension(extType, body, if decoded.Some? then decoded.value else Opaque)
  }

  function FirstExtension(buf: bytes): Option<(DecodedExtension, nat)> {
    if |buf| >= 4 && 4 + U16(buf[2], buf[3]) <= |buf| then
      var end := 4 + U16(buf[2], buf[3]);
      Some((ExtensionOf(U16(buf[0], buf[1]), buf[4..end]), end))
    else None
  }

  function EncodeExtension(e: DecodedExtension): bytes {
    if Fits16(e.raw) then Tagged(e.extType, e.raw) else []
  }

  /** An extension the decoder can produce: its body is the reading of its raw octets. */
  predicate ExtensionOk(e: DecodedExtension) {
    Fits16(e.raw) && e == ExtensionOf(e.extType, e.raw)
  }

  const EXTENSIONS := Codec(FirstExtension, EncodeExtension, ExtensionOk)

  lemma ExtensionsLawful()
    ensures Lawful(EXTENSIONS)
  {
    forall buf: bytes | EXTENSIONS.first(buf).Some?
      ensures TakenFrom(EXTENSIONS, EXTENSIONS.first(buf).value, buf)
    {
      TaggedInverse(buf, FirstExtension(buf).value.1);
    }
    forall e: DecodedExtension, rest: bytes | ExtensionOk(e)
      ensures FirstExtension(EncodeExtension(e) + rest) == Some((e, |EncodeExtension(e)|))
    {
      TaggedFront(e.extType, e.raw, rest);
    }
  }

  function WalkedExtensions(extBytes: bytes): seq<DecodedExtension> {
    Chop(EXTENSIONS, extBytes).items
  }

  method WalkExtensionBodies(extBytes: bytes) returns (out: seq<DecodedExtension>)
    ensures out == WalkedExtensions(extBytes)
  {
    hide Chop;
    out := [];
    var cursor := extBytes;
    while |cursor| >= 4
      invariant Extends(Chop(EXTENSIONS, extBytes), out, Chop(EXTENSIONS, cursor))
      decreases |cursor|
    {
      var extType := U16(cursor[0], cursor[1]);
      var bodyLen: nat := U16(cursor[2], cursor[3]);
      if |cursor| < 4 + bodyLen {
        break;
      }
      var body := cursor[4..4 + bodyLen];
      var decoded := DecodeBody(extType, body);
      var extension := DecodedExtension(extType, body, if decoded.Some? then decoded.value else Opaque);
      ChopTake(EXTENSIONS, Chop(EXTENSIONS, extBytes), out, cursor, extension, 4 + bodyLen);
      out := out + [extension];
      cursor := cursor[4 + bodyLen..];
    }
    ChopNone(EXTENSIONS, Chop(EXTENSIONS, extBytes), out, cursor);
  }

  // ----- readers: a value and what follows it

  function TakeU8(cursor: bytes): Result<(byte, bytes)> {
    if cursor == [] then Err(Truncated(1)) else Ok((cursor[0], cursor[1..]))
  }

  function TakeU16(cursor: bytes): Result<(u16, bytes)> {
    if |cursor| < 2 then Err(Truncated(2)) else Ok((U16(cursor[0], cursor[1]), cursor[2..]))
  }

  function TakeBytes(cursor: bytes, n: nat): Result<(bytes, bytes)> {
    if |cursor| < n then Err(Truncated(n)) else Ok((cursor[..n], cursor[n..]))
  }

  /** The slice reference that the readers advance. */
  class Cursor {
    var rest: bytes

    constructor (buf: bytes)
      ensures rest == buf
    {
      rest := buf;
    }

    method ReadU8() returns (r: Result<byte>)
      modifies this
      ensures if r.Ok? then TakeU8(old(rest)) == Ok((r.value, rest)) else TakeU8(old(rest)) == Err(r.error)
      ensures r.Err? ==> rest == old(rest)
    {
      if rest == [] {
        return Err(Truncated(1));
      }
      r := Ok(rest[0]);
      rest := rest[1..];
    }

    method ReadU16() returns (r: Result<u16>)
      modifies this
      ensures if r.Ok? then TakeU16(old(rest)) == Ok((r.value, rest)) else TakeU16(old(rest)) == Err(r.error)
      ensures r.Err? ==> rest == old(rest)
    {
      if |rest| < 2 {
        return Err(Truncated(2));
      }
      r := Ok(U16(rest[0], rest[1]));
      rest := rest[2..];
    }

    method ReadBytes(n: nat) returns (r: Result<bytes>)
      modifies this
      ensures if r.Ok? then TakeBytes(old(rest), n) == Ok((r.value, rest)) else TakeBytes(old(rest), n) == Err(r.error)
      ensures r.Err? ==> rest == old(rest)
    {
      if |rest| < n {
        return Err(Truncated(n));
      }
      r := Ok(rest[..n]);
      rest := rest[n..];
    }
  }

  // ----- the messages

  /** The body announced by a four-octet handshake header of the expected type. */
  function MessageBody(buf: bytes, expectedType: byte): Result<bytes> {
    if |buf| < 4 then Err(HeaderTruncated)
    else if buf[0] != expectedType then Err(UnexpectedType(buf[0], expectedType))
    else
      var length := Number(buf[1..4]);
      if |buf| < 4 + length then Err(BodyTruncated) else Ok(buf[4..4 + length])
  }

  /** A missing extension block counts as an empty one. */
  function ExtensionBlock(cursor: bytes): Result<seq<DecodedExtension>> {
    if cursor == [] then Ok([])
    else
      var (extLen, c) :- TakeU16(cursor);
      var (extBytes, _) :- TakeBytes(c, extLen);
      Ok(WalkedExtensions(extBytes))
  }

  /** The fields of a ClientHello body, in wire order. */
  function ClientFields(body: bytes): Result<ClientHello> {
    var (legacyVersion, c1) :- TakeU16(body);
    var (random, c2) :- TakeBytes(c1, 32);
    var (sessionIdLen, c3) :- TakeU8(c2);
    var (sessionId, c4) :- TakeBytes(c3, sessionIdLen);
    var (cipherSuitesLen, c5) :- TakeU16(c4);
    if cipherSuitesLen % 2 != 0 then Err(OddCipherSuites)
    else
      var (cipherBytes, c6) :- TakeBytes(c5, cipherSuitesLen);
      var (compressionLen, c7) :- TakeU8(c6);
      var (compressionMethods, c8) :- TakeBytes(c7, compressionLen);
      var extensions :- ExtensionBlock(c8);
      Ok(ClientHello(legacyVersion, random, sessionId, Chop(U16S, cipherBytes).items, compressionMethods, extensions))
  }

  /** The fields of a ServerHello body, in wire order. */
  function ServerFields(body: bytes): Result<ServerHello> {
    var (legacyVersion, c1) :- TakeU16(body);
    var (random, c2) :- TakeBytes(c1, 32);
    var (sessionIdLen, c3) :- TakeU8(c2);
    var (sessionIdEcho, c4) :- TakeBytes(c3, sessionIdLen);
    var (cipherSuite, c5) :- TakeU16(c4);
    var (compressionMethod, c6) :- TakeU8(c5);
    var extensions :- ExtensionBlock(c6);
    Ok(ServerHello(legacyVersion, random, sessionIdEcho, cipherSuite, compressionMethod, extensions))
  }

  function ClientHelloOf(buf: bytes): Result<ClientHello> {
    var body :- MessageBody(buf, 1);
    ClientFields(body)
  }

  function ServerHelloOf(buf: bytes): Result<ServerHello> {
    var body :- MessageBody(buf, 2);
    ServerFields(body)
  }

  method ReadExtensionBlock(cursor: Cursor) returns (r: Result<seq<DecodedExtension>>)
    modifies cursor
    ensures r == ExtensionBlock(old(cursor.rest))
  {
    if cursor.rest == [] {
      return Ok([]);
    }
    var extLen :- cursor.ReadU16();
    var extBytes :- cursor.ReadBytes(extLen);
    var extensions := WalkExtensionBodies(extBytes);
    return Ok(extensions);
  }

  method DecodeClientHello(buf: bytes) returns (r: Result<ClientHello>)
    ensures r == ClientHelloOf(buf)
  {
    var body :- MessageBody(buf, 1);
    var cursor := new Cursor(body);
    var legacyVersion :- cursor.ReadU16();
    var random :- cursor.ReadBytes(32);
    var sessionIdLen :- cursor.ReadU8();
    var sessionId :- cursor.ReadBytes(sessionIdLen);
    var cipherSuitesLen :- cursor.ReadU16();
    if cipherSuitesLen % 2 != 0 {
      return Err(OddCipherSuites);
    }
    var cipherBytes :- cursor.ReadBytes(cipherSuitesLen);
    var cipherSuites := Chop(U16S, cipherBytes).items;
    var compressionLen :- cursor.ReadU8();
    var compressionMethods :- cursor.ReadBytes(compressionLen);
    var extensions :- ReadExtensionBlock(cursor);
    return Ok(ClientHello(legacyVersion, random, sessionId, cipherSuites, compressionMethods, extensions));
  }

  method DecodeServerHello(buf: bytes) returns (r: Result<ServerHello>)
    ensures r == ServerHelloOf(buf)
  {
    var body :- MessageBody(buf, 2);
    var cursor := new Cursor(body);
    var legacyVersion :- cursor.ReadU16();
    var random :- cursor.ReadBytes(32);
    var sessionIdLen :- cursor.ReadU8();
    var sessionIdEcho :- cursor.ReadBytes(sessionIdLen);
    var cipherSuite :- cursor.ReadU16();
    var compressionMethod :- cursor.ReadU8();
    var extensions :- ReadExtensionBlock(cursor);
    return Ok(ServerHello(legacyVersion, random, sessionIdEcho, cipherSuite, compressionMethod, extensions));
  }

  predicate IsHelloRetryRequest(sh: ServerHello) {
    sh.random == HelloRetryRandom()
  }

  /** What the timeline shows of a plaintext handshake record. */
  function HandshakeBody(payload: bytes): DecodedHandshake {
    if payload == [] then Unknown(0, [])
    else if payload[0] == 1 then
      match ClientHelloOf(payload)
      case Ok(ch) => ClientHelloMessage(ch)
      case Err(_) => Unknown(1, payload)
    else if payload[0] == 2 then
      match ServerHelloOf(payload)
      case Ok(sh) => if IsHelloRetryRequest(sh) then HelloRetryRequest(sh) else ServerHelloMessage(sh)
      case Err(_) => Unknown(2, payload)
    else Unknown(payload[0], payload)
  }

  /** The first group of a key_share body, as the compact hello summary reads it. */
  function FirstKeyShareGroup(body: bytes): Option<NamedGroup> {
    if |body| < 4 then None
    else if U16(body[0], body[1]) + 2 == |body| then Some(GroupFromU16(U16(body[2], body[3])))
    else Some(GroupFromU16(U16(body[0], body[1])))
  }
}
