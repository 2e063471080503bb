/**
 Decoders for the bodies of TLS extensions (section 4.2 of RFC 8446), with the encodings they invert.
 */
module Extensions {
  import opened Wire
  import opened Items

  // ----- named groups

  datatype NamedGroup =
    | Secp256r1 | Secp384r1 | Secp521r1 | X25519 | X448
    | Ffdhe2048 | Ffdhe3072 | Ffdhe4096
    | X25519Kyber768Draft00 | X25519MlKem768 | SecP256r1MlKem768
    | OtherGroup(code: u16)

  function GroupFromU16(v: u16): NamedGroup {
    match v
    case 0x0017 => Secp256r1
    case 0x0018 => Secp384r1
    case 0x0019 => Secp521r1
    case 0x001d => X25519
    case 0x001e => X448
    case 0x0100 => Ffdhe2048
    case 0x0101 => Ffdhe3072
    case 0x0102 => Ffdhe4096
    case 0x6399 => X25519Kyber768Draft00
    case 0x11ec => X25519MlKem768
    case 0x11eb => SecP256r1MlKem768
    case other => OtherGroup(other)
  }

  /** The wire code of a group: the inverse of `GroupFromU16`. */
  function GroupCode(g: NamedGroup): u16 {
    match g
    case Secp256r1 => 0x0017
    case Secp384r1 => 0x0018
    case Secp521r1 => 0x0019
    case X25519 => 0x001d
    case X448 => 0x001e
    case Ffdhe2048 => 0x0100
    case Ffdhe3072 => 0x0101
    case Ffdhe4096 => 0x0102
    case X25519Kyber768Draft00 => 0x6399
    case X25519MlKem768 => 0x11ec
    case SecP256r1MlKem768 => 0x11eb
    case OtherGroup(code) => code
  }

  /** A group the decoder can produce: a named code is never held as an unknown one. */
  predicate GroupOk(g: NamedGroup) {
    GroupFromU16(GroupCode(g)) == g
  }

  // ----- the items of the lists

  datatype ServerNameEntry = ServerNameEntry(nameType: byte, name: bytes)
  datatype KeyShareEntry = KeyShareEntry(group: NamedGroup, groupCode: u16, keyExchange: bytes)
  datatype PskIdentity = PskIdentity(identity: bytes, obfuscatedTicketAge: u32)

  predicate Fits16(s: bytes) {
    |s| < 0x1_0000
  }

  /** An opaque vector with a two-octet length. */
  function Vector16(s: bytes): bytes
    requires Fits16(s)
  {
    PutU16(|s|) + s
  }

  function FirstU16(buf: bytes): Option<(u16, nat)> {
    if |buf| >= 2 then Some((U16(buf[0], buf[1]), 2)) else None
  }

  const U16S := Codec(FirstU16, (n: u16) => PutU16(n), (n: u16) => true)

  function FirstGroup(buf: bytes): Option<(NamedGroup, nat)> {
    if |buf| >= 2 then Some((GroupFromU16(U16(buf[0], buf[1])), 2)) else None
  }

  const GROUPS := Codec(FirstGroup, g => PutU16(GroupCode(g)), GroupOk)

  function FirstServerName(buf: bytes): Option<(ServerNameEntry, nat)> {
    if |buf| >= 3 && 3 + U16(buf[1], buf[2]) <= |buf| then
      var end := 3 + U16(buf[1], buf[2]);
      Some((ServerNameEntry(buf[0], buf[3..end]), end))
    else None
  }

  function EncodeServerName(e: ServerNameEntry): bytes {
    if Fits16(e.name) then [e.nameType] + Vector16(e.name) else []
  }

  const SERVER_NAMES := Codec(FirstServerName, EncodeServerName, (e: ServerNameEntry) => Fits16(e.name))

  function FirstProtocol(buf: bytes): Option<(bytes, nat)> {
    if |buf| >= 1 && 1 + buf[0] <= |buf| then
      var end: nat := 1 + (buf[0] as int);
      Some((buf[1..end], end))
    else None
  }

  function EncodeProtocol(p: bytes): bytes {
    if |p| < 0x100 then [|p|] + p else []
  }

  const PROTOCOLS := Codec(FirstProtocol, EncodeProtocol, (p: bytes) => |p| < 0x100)

  function FirstKeyShare(buf: bytes): Option<(KeyShareEntry, nat)> {
    if |buf| >= 4 && 4 + U16(buf[2], buf[3]) <= |buf| then
      var code, end := U16(buf[0], buf[1]), 4 + U16(buf[2], buf[3]);
      Some((KeyShareEntry(GroupFromU16(code), code, buf[4..end]), end))
    else None
  }

  function EncodeKeyShare(e: KeyShareEntry): bytes {
    if Fits16(e.keyExchange) then Tagged(e.groupCode, e.keyExchange) else []
  }

  predicate KeyShareOk(e: KeyShareEntry) {
    Fits16(e.keyExchange) && e.group == GroupFromU16(e.groupCode)
  }

  const KEY_SHARES := Codec(FirstKeyShare, EncodeKeyShare, KeyShareOk)

  function FirstIdentity(buf: bytes): Option<(PskIdentity, nat)> {
    if |buf| >= 2 && 2 + U16(buf[0], buf[1]) + 4 <= |buf| then
      var end := 2 + U16(buf[0], buf[1]);
      Some((PskIdentity(buf[2..end], U32(buf[end..end + 4])), end + 4))
    else None
  }

  function EncodeIdentity(p: PskIdentity): bytes {
    if Fits16(p.identity) then Vector16(p.identity) + Octets(p.obfuscatedTicketAge, 4) else []
  }

  const IDENTITIES := Codec(FirstIdentity, EncodeIdentity, (p: PskIdentity) => Fits16(p.identity))

  // ----- each item codec is lawful

  lemma U16sLawful()
    ensures Lawful(U16S)
  {
  }

  lemma GroupCodeInverse(v: u16)
    ensures GroupCode(GroupFromU16(v)) == v
  {
  }

  lemma GroupsLawful()
    ensures Lawful(GROUPS)
  {
    hide GroupFromU16, GroupCode;
    forall buf: bytes | GROUPS.first(buf).Some?
      ensures TakenFrom(GROUPS, GROUPS.first(buf).value, buf)
    {
      GroupCodeInverse(U16(buf[0], buf[1]));
      PutU16Inverse(buf[0], buf[1]);
    }
  }

  lemma Vector16Inverse(buf: bytes)
    requires |buf| >= 2 && 2 + U16(buf[0], buf[1]) <= |buf|
    ensures Vector16(buf[2..2 + U16(buf[0], buf[1])]) == buf[..2 + U16(buf[0], buf[1])]
  {
    PutU16Inverse(buf[0], buf[1]);
  }

  lemma Vector16Front(s: bytes, rest: bytes)
    requires Fits16(s)
    ensures var v := Vector16(s) + rest;
            |v| == 2 + |s| + |rest| && U16(v[0], v[1]) == |s| && v[2..2 + |s|] == s && v[2 + |s|..] == rest
  {
  }

  /** A two-octet code and an opaque vector: the shape of an extension and of a key share. */
  function Tagged(code: u16, s: bytes): bytes
    requires Fits16(s)
  {
    PutU16(code) + Vector16(s)
  }

  lemma TaggedInverse(buf: bytes, end: nat)
    requires |buf| >= 4 && end == 4 + U16(buf[2], buf[3]) <= |buf|
    ensures Tagged(U16(buf[0], buf[1]), buf[4..end]) == buf[..end]
  {
    PutU16Inverse(buf[0], buf[1]);
    Vector16Inverse(buf[2..]);
    assert buf[2..][2..end - 2] == buf[4..end] && buf[2..][..end - 2] == buf[2..end];
  }

  lemma TaggedFront(code: u16, s: bytes, rest: bytes)
    requires Fits16(s)
    ensures var v := Tagged(code, s) + rest;
            |v| == 4 + |s| + |rest| && U16(v[0], v[1]) == code && U16(v[2], v[3]) == |s| && v[4..4 + |s|] == s
  {
  }

  lemma ServerNamesLawful()
    ensures Lawful(SERVER_NAMES)
  {
    forall buf: bytes | SERVER_NAMES.first(buf).Some?
      ensures TakenFrom(SERVER_NAMES, SERVER_NAMES.first(buf).value, buf)
    {
      Vector16Inverse(buf[1..]);
      var end := FirstServerName(buf).value.1;
      assert buf[1..][2..end - 1] == buf[3..end] && buf[1..][..end - 1] == buf[1..end];
    }
    forall e: ServerNameEntry, rest: bytes | Fits16(e.name)
      ensures FirstServerName(EncodeServerName(e) + rest) == Some((e, |EncodeServerName(e)|))
    {
      Vector16Front(e.name, rest);
      var s := EncodeServerName(e) + rest;
      assert s[1..] == Vector16(e.name) + rest;
      assert s[3..3 + |e.name|] == s[1..][2..2 + |e.name|];
    }
  }

  lemma ProtocolsLawful()
    ensures Lawful(PROTOCOLS)
  {
  }

  lemma KeySharesLawful()
    ensures Lawful(KEY_SHARES)
  {
    forall buf: bytes | KEY_SHARES.first(buf).Some?
      ensures TakenFrom(KEY_SHARES, KEY_SHARES.first(buf).value, buf)
    {
      TaggedInverse(buf, FirstKeyShare(buf).value.1);
    }
    forall e: KeyShareEntry, rest: bytes | KeyShareOk(e)
      ensures FirstKeyShare(EncodeKeyShare(e) + rest) == Some((e, |EncodeKeyShare(e)|))
    {
      TaggedFront(e.groupCode, e.keyExchange, rest);
    }
  }

  lemma IdentitiesLawful()
    ensures Lawful(IDENTITIES)
  {
    forall buf: bytes | IDENTITIES.first(buf).Some?
      ensures TakenFrom(IDENTITIES, IDENTITIES.first(buf).value, buf)
    {
      var end := 2 + U16(buf[0], buf[1]);
      Vector16Inverse(buf);
      OctetsOfNumber(buf[end..end + 4]);
      assert buf[..end + 4] == buf[..end] + buf[end..end + 4];
    }
    forall p: PskIdentity, rest: bytes | Fits16(p.identity)
      ensures FirstIdentity(EncodeIdentity(p) + rest) == Some((p, |EncodeIdentity(p)|))
    {
      var age := Octets(p.obfuscatedTicketAge, 4);
      Limits();
      NumberOfOctets(p.obfuscatedTicketAge, 4);
      Associate(Vector16(p.identity), age, rest);
      Vector16Front(p.identity, age + rest);
      var s, end := EncodeIdentity(p) + rest, 2 + |p.identity|;
      assert s[end..end + 4] == s[end..][..4] == age;
    }
  }

  // ----- the bodies

  datatype ExtensionBody =
    | ServerName(names: seq<ServerNameEntry>)
    | SupportedVersions(versions: seq<u16>)
    | SignatureAlgorithms(schemes: seq<u16>)
    | KeyShare(entries: seq<KeyShareEntry>)
    | SupportedGroups(groups: seq<NamedGroup>)
    | Alpn(protocols: seq<bytes>)
    | PskKeyExchangeModes(modes: bytes)
    | Cookie(cookie: bytes)
    | PreSharedKey(identities: seq<PskIdentity>, bindersLen: nat)
    | EarlyData
    | Opaque

  function ReadOpaqueU16(body: bytes): Option<bytes> {
    if |body| < 2 || |body| != 2 + U16(body[0], body[1]) then None else Some(body[2..])
  }

  function ServerNameOf(body: bytes): Option<seq<ServerNameEntry>> {
    if |body| < 2 || |body| < 2 + U16(body[0], body[1]) then None
    else
      var p := Chop(SERVER_NAMES, body[2..2 + U16(body[0], body[1])]);
      if |p.rest| >= 3 then None else Some(p.items)
  }

  function SupportedGroupsOf(body: bytes): Option<seq<NamedGroup>> {
    var list :- ReadOpaqueU16(body);
    if |list| % 2 != 0 then None else Some(Chop(GROUPS, list).items)
  }

  function SignatureAlgorithmsOf(body: bytes): Option<seq<u16>> {
    var list :- ReadOpaqueU16(body);
    if |list| % 2 != 0 then None else Some(Chop(U16S, list).items)
  }

  function AlpnOf(body: bytes): Option<seq<bytes>> {
    var list :- ReadOpaqueU16(body);
    var p := Chop(PROTOCOLS, list);
    if p.rest == [] then Some(p.items) else None
  }

  function SupportedVersionsOf(body: bytes): Option<seq<u16>> {
    if |body| == 2 then Some([U16(body[0], body[1])])
    else if body == [] then None
    else if |body| != 1 + (body[0] as int) || body[0] % 2 != 0 then None
    else Some(Chop(U16S, body[1..]).items)
  }

  function PskKeyExchangeModesOf(body: bytes): Option<bytes> {
    if body == [] || |body| != 1 + (body[0] as int) then None else Some(body[1..])
  }

  /** Whether the two-octet prefix accounts for the whole body: the list form of a client. */
  predicate ListForm(body: bytes) {
    |body| >= 4 && |body| == 2 + U16(body[0], body[1])
  }

  function KeyShareEntriesOf(body: bytes): Option<seq<KeyShareEntry>> {
    var p := Chop(KEY_SHARES, body);
    if p.rest == [] then Some(p.items) else None
  }

  function KeyShareOf(body: bytes): Option<seq<KeyShareEntry>> {
    KeyShareEntriesOf(if ListForm(body) then body[2..] else body)
  }

  function PreSharedKeyOf(body: bytes): Option<ExtensionBody> {
    if |body| < 2 || |body| < 2 + U16(body[0], body[1]) + 2 then None
    else
      var end := 2 + U16(body[0], body[1]);
      var p := Chop(IDENTITIES, body[2..end]);
      if |p.rest| >= 2 then None else Some(PreSharedKey(p.items, U16(body[end], body[end + 1])))
  }

  function Wrap<T>(decoded: Option<T>, wrapper: T -> ExtensionBody): Option<ExtensionBody> {
    match decoded
    case None => None
    case Some(v) => Some(wrapper(v))
  }

  function BodyOf(extType: u16, body: bytes): Option<ExtensionBody> {
    match extType
    case 0 => Wrap(ServerNameOf(body), v => ServerName(v))
    case 10 => Wrap(SupportedGroupsOf(body), v => SupportedGroups(v))
    case 13 => Wrap(SignatureAlgorithmsOf(body), v => SignatureAlgorithms(v))
    case 50 => Wrap(SignatureAlgorithmsOf(body), v => SignatureAlgorithms(v))
    case 16 => Wrap(AlpnOf(body), v => Alpn(v))
    case 41 => PreSharedKeyOf(body)
    case 42 => Some(EarlyData)
    case 43 => Wrap(SupportedVersionsOf(body), v => SupportedVersions(v))
    case 44 => Wrap(ReadOpaqueU16(body), v => Cookie(v))
    case 45 => Wrap(PskKeyExchangeModesOf(body), v => PskKeyExchangeModes(v))
    case 51 => Wrap(KeyShareOf(body), v => KeyShare(v))
    case _ => None
  }

  // ----- the decoding loops

  method DecodeServerName(body: bytes) returns (r: Option<seq<ServerNameEntry>>)
    ensures r == ServerNameOf(body)
  {
    hide Chop;
    if |body| < 2 {
      return None;
    }
    var listLen: nat := U16(body[0], body[1]);
    if |body| < 2 + listLen {
      return None;
    }
    var list := body[2..2 + listLen];
    var cursor := list;
    var entries := [];
    while |cursor| >= 3
      invariant Extends(Chop(SERVER_NAMES, list), entries, Chop(SERVER_NAMES, cursor))
      decreases |cursor|
    {
      var nameType := cursor[0];
      var nameLen: nat := U16(cursor[1], cursor[2]);
      if |cursor| < 3 + nameLen {
        ChopNone(SERVER_NAMES, Chop(SERVER_NAMES, list), entries, cursor);
        return None;
      }
      var entry := ServerNameEntry(nameType, cursor[3..3 + nameLen]);
      ChopTake(SERVER_NAMES, Chop(SERVER_NAMES, list), entries, cursor, entry, 3 + nameLen);
      entries := entries + [entry];
      cursor := cursor[3 + nameLen..];
    }
    ChopNone(SERVER_NAMES, Chop(SERVER_NAMES, list), entries, cursor);
    return Some(entries);
  }

  method DecodeAlpn(body: bytes) returns (r: Option<seq<bytes>>)
    ensures r == AlpnOf(body)
  {
    hide Chop;
    var opaqueList := ReadOpaqueU16(body);
    if opaqueList.None? {
      return None;
    }
    var list := opaqueList.value;
    var cursor := list;
    var out := [];
    while cursor != []
      invariant Extends(Chop(PROTOCOLS, list), out, Chop(PROTOCOLS, cursor))
      decreases |cursor|
    {
      var len: nat, rest := cursor[0], cursor[1..];
      if |rest| < len {
        ChopNone(PROTOCOLS, Chop(PROTOCOLS, list), out, cursor);
        return None;
      }
      assert rest[..len] == cursor[1..1 + len] && rest[len..] == cursor[1 + len..];
      ChopTake(PROTOCOLS, Chop(PROTOCOLS, list), out, cursor, rest[..len], 1 + len);
      out := out + [rest[..len]];
      cursor := rest[len..];
    }
    ChopNone(PROTOCOLS, Chop(PROTOCOLS, list), out, cursor);
    return Some(out);
  }

  method ParseKeyShareEntries(body: bytes) returns (r: Option<seq<KeyShareEntry>>)
    ensures r == KeyShareEntriesOf(body)
  {
    hide Chop;
    var cursor := body;
    var out := [];
    while |cursor| >= 4
      invariant Extends(Chop(KEY_SHARES, body), out, Chop(KEY_SHARES, cursor))
      decreases |cursor|
    {
      var groupCode := U16(cursor[0], cursor[1]);
      var keyLen: nat := U16(cursor[2], cursor[3]);
      if |cursor| < 4 + keyLen {
        ChopNone(KEY_SHARES, Chop(KEY_SHARES, body), out, cursor);
        return None;
      }
      var entry := KeyShareEntry(GroupFromU16(groupCode), groupCode, cursor[4..4 + keyLen]);
      ChopTake(KEY_SHARES, Chop(KEY_SHARES, body), out, cursor, entry, 4 + keyLen);
      out := out + [entry];
      cursor := cursor[4 + keyLen..];
    }
    ChopNone(KEY_SHARES, Chop(KEY_SHARES, body), out, cursor);
    if cursor == [] {
      return Some(out);
    } else {
      return None;
    }
  }

  method DecodeKeyShare(body: bytes) returns (r: Option<seq<KeyShareEntry>>)
    ensures r == KeyShareOf(body)
  {
    if |body| >= 4 {
      var listLen: nat := U16(body[0], body[1]);
      if |body| == 2 + listLen {
        r := ParseKeyShareEntries(body[2..]);
        return;
      }
    }
    r := ParseKeyShareEntries(body);
  }

  method DecodePreSharedKey(body: bytes) returns (r: Option<ExtensionBody>)
    ensures r == PreSharedKeyOf(body)
  {
    hide Chop;
    if |body| < 2 {
      return None;
    }
    var identitiesLen: nat := U16(body[0], body[1]);
    if |body| < 2 + identitiesLen + 2 {
      return None;
    }
    var list := body[2..2 + identitiesLen];
    var cursor := list;
    var identities := [];
    while |cursor| >= 2
      invariant Extends(Chop(IDENTITIES, list), identities, Chop(IDENTITIES, cursor))
      decreases |cursor|
    {
      var idLen: nat := U16(cursor[0], cursor[1]);
      if |cursor| < 2 + idLen + 4 {
        ChopNone(IDENTITIES, Chop(IDENTITIES, list), identities, cursor);
        return None;
      }
      var age := U32(cursor[2 + idLen..6 + idLen]);
      var identity := PskIdentity(cursor[2..2 + idLen], age);
      ChopTake(IDENTITIES, Chop(IDENTITIES, list), identities, cursor, identity, 2 + idLen + 4);
      identities := identities + [identity];
      cursor := cursor[2 + idLen + 4..];
    }
    ChopNone(IDENTITIES, Chop(IDENTITIES, list), identities, cursor);
    var bindersStart := 2 + identitiesLen;
    return Some(PreSharedKey(identities, U16(body[bindersStart], body[bindersStart + 1])));
  }

  method DecodeBody(extType: u16, body: bytes) returns (r: Option<ExtensionBody>)
    ensures r == BodyOf(extType, body)
  {
    match extType {
      case 0 =>
        var names := DecodeServerName(body);
        return Wrap(names, v => ServerName(v));
      case 10 =>
        return Wrap(SupportedGroupsOf(body), v => SupportedGroups(v));
      case 13 =>
        return Wrap(SignatureAlgorithmsOf(body), v => SignatureAlgorithms(v));
      case 50 =>
        return Wrap(SignatureAlgorithmsOf(body), v => SignatureAlgorithms(v));
      case 16 =>
        var protocols := DecodeAlpn(body);
        return Wrap(protocols, v => Alpn(v));
      case 41 =>
        r := DecodePreSharedKey(body);
      case 42 =>
        return Some(EarlyData);
      case 43 =>
        return Wrap(SupportedVersionsOf(body), v => SupportedVersions(v));
      case 44 =>
        return Wrap(ReadOpaqueU16(body), v => Cookie(v));
      case 45 =>
        return Wrap(PskKeyExchangeModesOf(body), v => PskKeyExchangeModes(v));
      case 51 =>
        var entries := DecodeKeyShare(body);
        return Wrap(entries, v => KeyShare(v));
      case _ =>
        return None;
    }
  }
}
