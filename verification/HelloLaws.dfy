/**
 Decoding a hello message is the inverse of encoding it: exact characterisations in both directions,
 round trips, rejection of truncated input, and agreement with the compact key_share reader.
 */
module HelloLaws {
  import opened Wire
  import opened Items
  import opened Extensions
  import ExtensionLaws
  import opened Hello

  // ----- readers

  lemma TakeU8Exact(cursor: bytes, n: byte, rest: bytes)
    ensures TakeU8(cursor) == Ok((n, rest)) <==> cursor == [n] + rest
  {
  }

  lemma TakeU16Exact(cursor: bytes, n: u16, rest: bytes)
    ensures TakeU16(cursor) == Ok((n, rest)) <==> cursor == PutU16(n) + rest
  {
  }

  lemma TakeBytesExact(cursor: bytes, s: bytes, rest: bytes)
    ensures TakeBytes(cursor, |s|) == Ok((s, rest)) <==> cursor == s + rest
  {
  }

  // ----- the encodings

  predicate ClientHelloOk(m: ClientHello) {
    |m.random| == 32 && |m.sessionId| < 0x100 && 2 * |m.cipherSuites| < 0x1_0000 && |m.compressionMethods| < 0x100
  }

  predicate ServerHelloOk(m: ServerHello) {
    |m.random| == 32 && |m.sessionIdEcho| < 0x100
  }

  function ClientBody(m: ClientHello, tail: bytes): bytes
    requires ClientHelloOk(m)
  {
    PutU16(m.legacyVersion) + (m.random + SessionAndSuites(m, tail))
  }

  function SessionAndSuites(m: ClientHello, tail: bytes): bytes
    requires ClientHelloOk(m)
  {
    [|m.sessionId|] + (m.sessionId + Suites(m, tail))
  }

  function Suites(m: ClientHello, tail: bytes): bytes
    requires ClientHelloOk(m)
  {
    PutU16(2 * |m.cipherSuites|) + (EncodeItems(U16S, m.cipherSuites) + Compression(m, tail))
  }

  function Compression(m: ClientHello, tail: bytes): bytes
    requires ClientHelloOk(m)
  {
    [|m.compressionMethods|] + (m.compressionMethods + tail)
  }

  function ServerBody(m: ServerHello, tail: bytes): bytes
    requires ServerHelloOk(m)
  {
    PutU16(m.legacyVersion) + (m.random + ([|m.sessionIdEcho|] + (m.sessionIdEcho + SuiteAndCompression(m, tail))))
  }

  function SuiteAndCompression(m: ServerHello, tail: bytes): bytes {
    PutU16(m.cipherSuite) + ([m.compressionMethod] + tail)
  }

  function Message(msgType: byte, body: bytes): bytes
  {
    ([msgType] + Octets(|body|, 3)) + body
  }

  /** The extension block of a hello: left out, or a length and the extensions. */
  predicate BlockOf(extensions: seq<DecodedExtension>, block: bytes) {
    (block == [] && extensions == []) ||
    (Fits16(EncodeItems(EXTENSIONS, extensions)) && block == Vector16(EncodeItems(EXTENSIONS, extensions)))
  }

  // ----- the message header

  lemma MessageBodyExact(buf: bytes, msgType: byte, body: bytes)
    ensures MessageBody(buf, msgType) == Ok(body) <==> |body| < 0x100_0000 && Message(msgType, body) <= buf
  {
    Limits();
    if |body| < 0x100_0000 && Message(msgType, body) <= buf {
      var m := Message(msgType, body);
      assert m[0] == msgType && m[1..4] == Octets(|body|, 3) && m[4..] == body;
      assert buf[..|m|] == m;
      assert buf[0] == m[0] && buf[1..4] == m[1..4] && buf[4..4 + |body|] == m[4..];
      NumberOfOctets(|body|, 3);
    }
    if MessageBody(buf, msgType) == Ok(body) {
      OctetsOfNumber(buf[1..4]);
      assert ([msgType] + Octets(|body|, 3)) == buf[..4];
      assert buf[..4] + body == buf[..4 + |body|];
    }
  }

  // ----- extension blocks

  /**
   The block is the two-octet length of, then, the encoded extensions and octets that hold no further
   whole extension, whatever follows.
   */
  ghost predicate WrittenBlock(block: bytes, extensions: seq<DecodedExtension>, rest: bytes, trailing: bytes) {
    AllOk(EXTENSIONS, extensions) && FirstExtension(rest).None? &&
    Fits16(EncodeItems(EXTENSIONS, extensions) + rest) &&
    block == Vector16(EncodeItems(EXTENSIONS, extensions) + rest) + trailing
  }

  /** The extension block at the end of a hello that carries these extensions: absent, or written out. */
  ghost predicate BlockCarries(block: bytes, extensions: seq<DecodedExtension>) {
    (block == [] && extensions == []) || exists rest, trailing :: WrittenBlock(block, extensions, rest, trailing)
  }

  /** A block reads as `extensions` exactly if it carries them. */
  lemma ExtensionBlockExact(block: bytes, extensions: seq<DecodedExtension>)
    ensures ExtensionBlock(block) == Ok(extensions) <==> BlockCarries(block, extensions)
  {
    hide ExtensionOf, EncodeExtension, ExtensionOk, FirstExtension, Chop, EncodeItems;
    ExtensionsLawful();
    if ExtensionBlock(block) == Ok(extensions) && block != [] {
      var end := 2 + U16(block[0], block[1]);
      var list, rest := block[2..end], Chop(EXTENSIONS, block[2..end]).rest;
      assert block[2..][..U16(block[0], block[1])] == list;
      ChopIsExact(EXTENSIONS, list, extensions, rest);
      Vector16Inverse(block);
      assert WrittenBlock(block, extensions, rest, block[end..]);
    }
    if rest, trailing :| WrittenBlock(block, extensions, rest, trailing) {
      WrittenBlockReads(block, extensions, rest, trailing);
    }
  }

  lemma WrittenBlockReads(block: bytes, extensions: seq<DecodedExtension>, rest: bytes, trailing: bytes)
    requires WrittenBlock(block, extensions, rest, trailing)
    ensures ExtensionBlock(block) == Ok(extensions)
  {
    hide ExtensionOf, EncodeExtension, ExtensionOk, FirstExtension, Chop, EncodeItems;
    var list := EncodeItems(EXTENSIONS, extensions) + rest;
    ExtensionsLawful();
    Vector16Front(list, trailing);
    ChopIsExact(EXTENSIONS, list, extensions, rest);
    assert block[2..][..U16(block[0], block[1])] == list;
  }

  /**
   Walking extension octets: the result is an encodable list whose encoding starts the input, and every
   run of whole extensions that starts the input starts it too.
   */
  lemma WalkIsLongestPrefix(extBytes: bytes, other: seq<DecodedExtension>)
    ensures AllOk(EXTENSIONS, WalkedExtensions(extBytes))
    ensures EncodeItems(EXTENSIONS, WalkedExtensions(extBytes)) <= extBytes
    ensures AllOk(EXTENSIONS, other) && EncodeItems(EXTENSIONS, other) <= extBytes ==>
              other <= WalkedExtensions(extBytes)
  {
    ExtensionsLawful();
    var k := ChopSplits(EXTENSIONS, extBytes);
    if AllOk(EXTENSIONS, other) && EncodeItems(EXTENSIONS, other) <= extBytes {
      ChopIsLongest(EXTENSIONS, extBytes, other);
    }
  }

  lemma BlockRoundTrip(extensions: seq<DecodedExtension>, block: bytes)
    requires AllOk(EXTENSIONS, extensions) && BlockOf(extensions, block)
    ensures BlockCarries(block, extensions)
  {
    var list := EncodeItems(EXTENSIONS, extensions);
    assert list + [] == list;
    assert block != [] ==> WrittenBlock(block, extensions, [], []);
  }

  // ----- hello bodies

  /** A decoded body is the encoding of its fields followed by its extension block. */
  lemma ClientFieldsSound(body: bytes) returns (tail: bytes)
    requires ClientFields(body).Ok?
    ensures var m := ClientFields(body).value;
            ClientHelloOk(m) && body == ClientBody(m, tail) && ExtensionBlock(tail) == Ok(m.extensions)
  {
    var m := ClientFields(body).value;
    var (v, c1) := TakeU16(body).value;
    var (random, c2) := TakeBytes(c1, 32).value;
    var (n, c3) := TakeU8(c2).value;
    var (id, c4) := TakeBytes(c3, n).value;
    var (k, c5) := TakeU16(c4).value;
    var (suites, c6) := TakeBytes(c5, k).value;
    var (j, c7) := TakeU8(c6).value;
    var (compression, c8) := TakeBytes(c7, j).value;
    tail := c8;
    TakeU16Exact(body, v, c1);
    TakeBytesExact(c1, random, c2);
    TakeU8Exact(c2, n, c3);
    TakeBytesExact(c3, id, c4);
    TakeU16Exact(c4, k, c5);
    TakeBytesExact(c5, suites, c6);
    TakeU8Exact(c6, j, c7);
    TakeBytesExact(c7, compression, c8);
    SuitesExact(suites, m.cipherSuites);
    assert c6 == Compression(m, tail);
    assert c2 == SessionAndSuites(m, tail);
  }

  /** A body built from encodable fields and a readable extension block decodes to them. */
  lemma ClientFieldsComplete(m: ClientHello, tail: bytes)
    requires ClientHelloOk(m) && ExtensionBlock(tail) == Ok(m.extensions)
    ensures ClientFields(ClientBody(m, tail)) == Ok(m)
  {
    var suites := EncodeItems(U16S, m.cipherSuites);
    var c6 := Compression(m, tail);
    var c2 := SessionAndSuites(m, tail);
    var c1 := m.random + c2;
    TakeU16Exact(ClientBody(m, tail), m.legacyVersion, c1);
    TakeBytesExact(c1, m.random, c2);
    TakeU8Exact(c2, |m.sessionId|, c2[1..]);
    TakeBytesExact(c2[1..], m.sessionId, Suites(m, tail));
    TakeU16Exact(Suites(m, tail), 2 * |m.cipherSuites|, suites + c6);
    SuitesExact(suites, m.cipherSuites);
    TakeBytesExact(suites + c6, suites, c6);
    TakeU8Exact(c6, |m.compressionMethods|, m.compressionMethods + tail);
    TakeBytesExact(m.compressionMethods + tail, m.compressionMethods, tail);
  }

  lemma SuitesExact(suites: bytes, codes: seq<u16>)
    ensures |EncodeItems(U16S, codes)| == 2 * |codes|
    ensures |suites| % 2 == 0 && Chop(U16S, suites).items == codes <==> suites == EncodeItems(U16S, codes)
  {
    U16sLawful();
    ExtensionLaws.PairsLength(codes);
    ExtensionLaws.PairsLeaveParity(U16S, suites);
    ChopIsExact(U16S, suites, codes, []);
    assert EncodeItems(U16S, codes) + [] == EncodeItems(U16S, codes);
  }

  lemma ServerFieldsSound(body: bytes) returns (tail: bytes)
    requires ServerFields(body).Ok?
    ensures var m := ServerFields(body).value;
            ServerHelloOk(m) && body == ServerBody(m, tail) && ExtensionBlock(tail) == Ok(m.extensions)
  {
    var m := ServerFields(body).value;
    var (v, c1) := TakeU16(body).value;
    var (random, c2) := TakeBytes(c1, 32).value;
    var (n, c3) := TakeU8(c2).value;
    var (id, c4) := TakeBytes(c3, n).value;
    var (suite, c5) := TakeU16(c4).value;
    var (compression, c6) := TakeU8(c5).value;
    tail := c6;
    TakeU16Exact(body, v, c1);
    TakeBytesExact(c1, random, c2);
    TakeU8Exact(c2, n, c3);
    TakeBytesExact(c3, id, c4);
    TakeU16Exact(c4, suite, c5);
    TakeU8Exact(c5, compression, c6);
    assert c4 == SuiteAndCompression(m, tail);
  }

  lemma ServerFieldsComplete(m: ServerHello, tail: bytes)
    requires ServerHelloOk(m) && ExtensionBlock(tail) == Ok(m.extensions)
    ensures ServerFields(ServerBody(m, tail)) == Ok(m)
  {
  }

  // ----- the main results

  /** `block` is the extension block of a ClientHello message for `m` that starts the buffer. */
  ghost predicate CarriesClient(buf: bytes, m: ClientHello, block: bytes) {
    ClientHelloOk(m) && BlockCarries(block, m.extensions) &&
    |ClientBody(m, block)| < 0x100_0000 && Message(1, ClientBody(m, block)) <= buf
  }

  ghost predicate CarriesServer(buf: bytes, m: ServerHello, block: bytes) {
    ServerHelloOk(m) && BlockCarries(block, m.extensions) &&
    |ServerBody(m, block)| < 0x100_0000 && Message(2, ServerBody(m, block)) <= buf
  }

  /** A buffer decodes to `m` exactly if it starts with a ClientHello message that carries the fields of `m`. */
  lemma ClientHelloExact(buf: bytes, m: ClientHello)
    ensures ClientHelloOf(buf) == Ok(m) <==> exists block :: CarriesClient(buf, m, block)
  {
    hide BlockCarries, ExtensionBlock;
    if ClientHelloOf(buf) == Ok(m) {
      var body := MessageBody(buf, 1).value;
      var block := ClientFieldsSound(body);
      MessageBodyExact(buf, 1, body);
      ExtensionBlockExact(block, m.extensions);
      assert CarriesClient(buf, m, block);
    }
    if block :| CarriesClient(buf, m, block) {
      MessageBodyExact(buf, 1, ClientBody(m, block));
      ExtensionBlockExact(block, m.extensions);
      ClientFieldsComplete(m, block);
    }
  }

  lemma ServerHelloExact(buf: bytes, m: ServerHello)
    ensures ServerHelloOf(buf) == Ok(m) <==> exists block :: CarriesServer(buf, m, block)
  {
    hide BlockCarries, ExtensionBlock;
    if ServerHelloOf(buf) == Ok(m) {
      var body := MessageBody(buf, 2).value;
      var block := ServerFieldsSound(body);
      MessageBodyExact(buf, 2, body);
      ExtensionBlockExact(block, m.extensions);
      assert CarriesServer(buf, m, block);
    }
    if block :| CarriesServer(buf, m, block) {
      MessageBodyExact(buf, 2, ServerBody(m, block));
      ExtensionBlockExact(block, m.extensions);
      ServerFieldsComplete(m, block);
    }
  }

  /** Every encodable ClientHello comes back, with its extension block or without when it is empty. */
  lemma ClientHelloRoundTrip(m: ClientHello, block: bytes, trailing: bytes)
    requires ClientHelloOk(m) && AllOk(EXTENSIONS, m.extensions) && BlockOf(m.extensions, block)
    requires |ClientBody(m, block)| < 0x100_0000
    ensures ClientHelloOf(Message(1, ClientBody(m, block)) + trailing) == Ok(m)
    ensures HandshakeBody(Message(1, ClientBody(m, block)) + trailing) == ClientHelloMessage(m)
  {
    BlockRoundTrip(m.extensions, block);
    var buf := Message(1, ClientBody(m, block)) + trailing;
    assert CarriesClient(buf, m, block);
    ClientHelloExact(buf, m);
  }

  /** Every encodable ServerHello comes back; it is shown as a HelloRetryRequest exactly for the fixed random. */
  lemma ServerHelloRoundTrip(m: ServerHello, block: bytes, trailing: bytes)
    requires ServerHelloOk(m) && AllOk(EXTENSIONS, m.extensions) && BlockOf(m.extensions, block)
    requires |ServerBody(m, block)| < 0x100_0000
    ensures var buf := Message(2, ServerBody(m, block)) + trailing;
            ServerHelloOf(buf) == Ok(m) &&
            HandshakeBody(buf) ==
            (if m.random == HelloRetryRandom() then HelloRetryRequest(m) else ServerHelloMessage(m))
  {
    BlockRoundTrip(m.extensions, block);
    var buf := Message(2, ServerBody(m, block)) + trailing;
    assert CarriesServer(buf, m, block);
    ServerHelloExact(buf, m);
  }

  /**
   A plaintext payload is shown as a HelloRetryRequest exactly if it starts with a ServerHello message
   whose random is the fixed one, and as a ServerHello exactly if the random is another.
   */
  lemma RetryIsExact(payload: bytes, m: ServerHello)
    ensures HandshakeBody(payload) == HelloRetryRequest(m) <==>
            (exists block :: CarriesServer(payload, m, block)) && m.random == HelloRetryRandom()
    ensures HandshakeBody(payload) == ServerHelloMessage(m) <==>
            (exists block :: CarriesServer(payload, m, block)) && m.random != HelloRetryRandom()
  {
    hide ServerFields, ClientFields, HelloRetryRandom, CarriesServer;
    ServerHelloExact(payload, m);
  }

  /** No proper prefix of a message is accepted, as either kind of hello. */
  lemma TruncatedMessageRejected(msgType: byte, body: bytes, n: nat)
    requires |body| < 0x100_0000 && n < 4 + |body|
    ensures ClientHelloOf(Message(msgType, body)[..n]).Err? && ServerHelloOf(Message(msgType, body)[..n]).Err?
  {
    var m := Message(msgType, body);
    Limits();
    NumberOfOctets(|body|, 3);
    if n >= 4 {
      assert m[..n][1..4] == m[1..4] == Octets(|body|, 3);
    }
  }

  /** The compact hello summary and the full decoder name the same first group. */
  lemma KeyShareReadersAgree(body: bytes)
    ensures KeyShareOf(body).Some? && KeyShareOf(body).value != [] ==>
              FirstKeyShareGroup(body) == Some(KeyShareOf(body).value[0].group)
  {
  }

  /** The compact reader finds the first group of every client list that can be written. */
  lemma FirstGroupOfClientList(entries: seq<KeyShareEntry>)
    requires entries != [] && AllOk(KEY_SHARES, entries) && Fits16(EncodeItems(KEY_SHARES, entries))
    ensures FirstKeyShareGroup(Vector16(EncodeItems(KEY_SHARES, entries))) == Some(entries[0].group)
  {
  }

  /** The constant of section 4.1.3 of RFC 8446, in words of four octets. */
  const RETRY_WORDS := [0xCF21AD74, 0xE59A6111, 0xBE1D8C02, 0x1E65B891, 0xC2A21116, 0x7ABB8C5E, 0x079E09E2, 0xC8A8339C]

  lemma HelloRetryConstant(i: nat)
    requires i < 8
    ensures |HelloRetryRandom()| == 32 && Number(HelloRetryRandom()[4 * i..4 * i + 4]) == RETRY_WORDS[i]
  {
    FourOctets(HelloRetryRandom()[4 * i..4 * i + 4]);
  }

  lemma FourOctets(s: bytes)
    requires |s| == 4
    ensures Number(s) == U16(s[0], s[1]) as int * 0x1_0000 + U16(s[2], s[3])
  {
    ThreeOctets(s[..3]);
  }

  /** What is shown of any other payload: its type and its octets, as they are. */
  lemma UnknownIsExact(payload: bytes)
    ensures HandshakeBody(payload).Unknown? <==>
            !(exists m, block :: CarriesClient(payload, m, block)) &&
            !(exists m, block :: CarriesServer(payload, m, block))
    ensures HandshakeBody(payload).Unknown? ==>
              HandshakeBody(payload) == Unknown(if payload == [] then 0 else payload[0], payload)
  {
    hide ClientFields, ServerFields, HelloRetryRandom, CarriesClient, CarriesServer;
    if ClientHelloOf(payload).Ok? {
      ClientHelloExact(payload, ClientHelloOf(payload).value);
    }
    if ServerHelloOf(payload).Ok? {
      ServerHelloExact(payload, ServerHelloOf(payload).value);
    }
    if m, block :| CarriesClient(payload, m, block) {
      ClientHelloExact(payload, m);
    }
    if m, block :| CarriesServer(payload, m, block) {
      ServerHelloExact(payload, m);
    }
  }

  /** Why a message is refused before its fields are read. */
  lemma HeaderErrors(buf: bytes, msgType: byte)
    ensures MessageBody(buf, msgType) == Err(HeaderTruncated) <==> |buf| < 4
    ensures forall got :: MessageBody(buf, msgType) == Err(UnexpectedType(got, msgType)) <==>
                          |buf| >= 4 && buf[0] == got && got != msgType
    ensures MessageBody(buf, msgType) == Err(BodyTruncated) <==>
            |buf| >= 4 && buf[0] == msgType && |buf| - 4 < U16(buf[1], buf[2]) as int * 0x100 + buf[3]
  {
    if |buf| >= 4 {
      ThreeOctets(buf[1..4]);
    }
  }

  lemma ThreeOctets(s: bytes)
    requires |s| == 3
    ensures Number(s) == U16(s[0], s[1]) as int * 0x100 + s[2]
  {
    NumberOfTwo(s[..2]);
  }

  /** The compact reader takes the group named by the first two octets of the list, or of the body in bare form. */
  lemma CompactReader(body: bytes)
    ensures |body| < 4 <==> FirstKeyShareGroup(body).None?
    ensures forall g :: |body| >= 4 && g == (if ListForm(body) then body[2..4] else body[..2]) ==>
                          FirstKeyShareGroup(body) == Some(GroupFromU16(g[0] * 0x100 + g[1]))
  {
  }
}
