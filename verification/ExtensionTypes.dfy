/**
 Which extension is which: every type code with the octets of its body, written out, against the body that
 the decoder yields.
 */
module ExtensionTypes {
  import opened Wire
  import opened Items
  import opened Extensions
  import opened ExtensionLaws
  import opened Hello
  import opened HelloLaws

  /** The names fill the announced list but for at most two stray octets, whatever follows it. */
  ghost predicate SpellsNames(octets: bytes, names: seq<ServerNameEntry>) {
    |octets| >= 2 && 2 + U16(octets[0], octets[1]) <= |octets| && AllOk(SERVER_NAMES, names) &&
    var list := octets[2..2 + U16(octets[0], octets[1])];
    EncodeItems(SERVER_NAMES, names) <= list && |list| - |EncodeItems(SERVER_NAMES, names)| < 3
  }

  /** The identities fill the announced list but for at most one stray octet; the length of the binders follows. */
  ghost predicate SpellsIdentities(octets: bytes, ids: seq<PskIdentity>, bindersLen: nat) {
    |octets| >= 2 && 2 + U16(octets[0], octets[1]) + 2 <= |octets| && AllOk(IDENTITIES, ids) &&
    var end := 2 + U16(octets[0], octets[1]);
    EncodeItems(IDENTITIES, ids) <= octets[2..end] && end - 2 - |EncodeItems(IDENTITIES, ids)| < 2 &&
    bindersLen == U16(octets[end], octets[end + 1])
  }

  /** The extension of this type (section 4.2 of RFC 8446) and these octets says `b`. */
  ghost predicate Spells(code: u16, octets: bytes, b: ExtensionBody) {
    match b
    case ServerName(names) => code == 0 && SpellsNames(octets, names)
    case SupportedGroups(groups) => code == 10 && IsVectorOf(GROUPS, groups, octets)
    case SignatureAlgorithms(schemes) => code in {13, 50} && IsVectorOf(U16S, schemes, octets)
    case Alpn(protocols) => code == 16 && IsVectorOf(PROTOCOLS, protocols, octets)
    case PreSharedKey(ids, bindersLen) => code == 41 && SpellsIdentities(octets, ids, bindersLen)
    case EarlyData => code == 42
    case SupportedVersions(versions) =>
      code == 43 && ((|versions| < 0x80 && octets == ClientVersions(versions)) ||
                     (|versions| == 1 && octets == PutU16(versions[0])))
    case Cookie(cookie) => code == 44 && Fits16(cookie) && octets == Vector16(cookie)
    case PskKeyExchangeModes(modes) => code == 45 && |modes| < 0x100 && octets == [|modes|] + modes
    case KeyShare(entries) =>
      code == 51 && ((entries != [] && IsVectorOf(KEY_SHARES, entries, octets)) ||
                     (AllOk(KEY_SHARES, entries) && octets == EncodeItems(KEY_SHARES, entries) && !ListForm(octets)))
    case Opaque => false
  }

  /** A body is read from an extension exactly if its octets spell it under its type. */
  lemma BodyExact(code: u16, octets: bytes, b: ExtensionBody)
    ensures BodyOf(code, octets) == Some(b) <==> Spells(code, octets, b)
  {
    hide ServerNameOf, SupportedGroupsOf, SignatureAlgorithmsOf, AlpnOf, SupportedVersionsOf,
         ReadOpaqueU16, PskKeyExchangeModesOf, KeyShareOf, IsVectorOf, ListForm;
    match b {
      case ServerName(names) => ServerNameExact(octets, names);
      case SupportedGroups(groups) => SupportedGroupsExact(octets, groups);
      case SignatureAlgorithms(schemes) => SignatureAlgorithmsExact(octets, schemes);
      case Alpn(protocols) => AlpnExact(octets, protocols);
      case PreSharedKey(ids, bindersLen) => PreSharedKeyExact(octets, ids, bindersLen);
      case SupportedVersions(versions) => SupportedVersionsExact(octets, versions);
      case Cookie(cookie) => OpaqueExact(octets, cookie);
      case PskKeyExchangeModes(modes) => PskKeyExchangeModesExact(octets, modes);
      case KeyShare(entries) => KeyShareExact(octets, entries);
      case _ =>
    }
  }

  /** Whatever follows it, a written extension is read back with its body. */
  lemma TypedRoundTrip(code: u16, octets: bytes, b: ExtensionBody, rest: bytes)
    requires Fits16(octets) && Spells(code, octets, b)
    ensures FirstExtension(Tagged(code, octets) + rest) == Some((DecodedExtension(code, octets, b), 4 + |octets|))
  {
    hide Spells, BodyOf;
    BodyExact(code, octets, b);
    TaggedFront(code, octets, rest);
  }

  /** An extension of another type, or one whose octets spell nothing, is kept as opaque. */
  lemma OpaqueOtherwise(code: u16, octets: bytes)
    requires code !in {0, 10, 13, 16, 41, 42, 43, 44, 45, 50, 51} || forall b :: !Spells(code, octets, b)
    ensures ExtensionOf(code, octets) == DecodedExtension(code, octets, Opaque)
  {
    hide BodyOf;
    if BodyOf(code, octets).Some? {
      BodyExact(code, octets, BodyOf(code, octets).value);
    }
  }

  /** The named groups by their registered codes (section 4.2.7 of RFC 8446). */
  lemma RegisteredGroups()
    ensures GroupFromU16(0x0017) == Secp256r1 && GroupFromU16(0x0018) == Secp384r1 && GroupFromU16(0x0019) == Secp521r1
    ensures GroupFromU16(0x001d) == X25519 && GroupFromU16(0x001e) == X448
    ensures GroupFromU16(0x0100) == Ffdhe2048 && GroupFromU16(0x0101) == Ffdhe3072 && GroupFromU16(0x0102) == Ffdhe4096
    ensures GroupFromU16(0x11eb) == SecP256r1MlKem768 && GroupFromU16(0x11ec) == X25519MlKem768
    ensures GroupFromU16(0x6399) == X25519Kyber768Draft00
    ensures forall v: u16 :: GroupFromU16(v).OtherGroup? ==> GroupFromU16(v) == OtherGroup(v)
    ensures forall v: u16, w: u16 :: GroupFromU16(v) == GroupFromU16(w) ==> v == w
  {
    forall v: u16, w: u16 | GroupFromU16(v) == GroupFromU16(w)
      ensures v == w
    {
      GroupCodeInverse(v);
      GroupCodeInverse(w);
    }
  }

  lemma OneGroup()
    ensures IsVectorOf(GROUPS, [X25519], [0, 2, 0, 29]) && IsVectorOf(U16S, [29], [0, 2, 0, 29])
  {
    hide Chop, GroupFromU16, PutU16;
    PutU16Inverse(0, 2);
    PutU16Inverse(0, 29);
    RegisteredGroups();
    EncodeOne(GROUPS, X25519);
    EncodeOne(U16S, 29);
    assert [0 as byte, 2] + [0, 29] == [0, 2, 0, 29];
  }

  /** supported_groups with x25519, and the same octets as signature_algorithms. */
  lemma GroupsOnTheWire()
    ensures ExtensionOf(10, [0, 2, 0, 29]).body == SupportedGroups([X25519])
    ensures ExtensionOf(13, [0, 2, 0, 29]).body == SignatureAlgorithms([29])
  {
    hide BodyOf, IsVectorOf;
    OneGroup();
    BodyExact(10, [0, 2, 0, 29], SupportedGroups([X25519]));
    BodyExact(13, [0, 2, 0, 29], SignatureAlgorithms([29]));
  }

  // ----- one item of each list, octet by octet

  lemma NameOnTheWire()
    ensures FirstServerName([0, 0, 2, 97, 98]) == Some((ServerNameEntry(0, [97, 98]), 5))
    ensures FirstProtocol([2, 104, 50]) == Some(([104, 50], 3))
  {
    var name: bytes, protocol: bytes := [0, 0, 2, 97, 98], [2, 104, 50];
    assert name[3..5] == [97, 98] && protocol[1..3] == [104, 50] && U16(0, 2) == 2;
  }

  lemma KeyShareOnTheWire()
    ensures FirstKeyShare([0, 29, 0, 1, 7]) == Some((KeyShareEntry(X25519, 29, [7]), 5))
  {
    assert GroupFromU16(29) == X25519;
    hide GroupFromU16;
    var share: bytes := [0, 29, 0, 1, 7];
    assert share[4..5] == [7] && U16(0, 29) == 29 && U16(0, 1) == 1;
  }

  lemma EarlyDataOnTheWire()
    ensures FirstExtension([0, 42, 0, 0]) == Some((DecodedExtension(42, [], EarlyData), 4))
  {
    hide FirstExtension, BodyOf;
    PutU16Inverse(0, 42);
    PutU16Inverse(0, 0);
    assert Tagged(42, []) + [] == [0, 42, 0, 0];
    TypedRoundTrip(42, [], EarlyData, []);
  }

  lemma IdentityOnTheWire()
    ensures FirstIdentity([0, 1, 9, 0, 0, 1, 2]) == Some((PskIdentity([9], 0x102), 7))
  {
    var identity: bytes, age: bytes := [0, 1, 9, 0, 0, 1, 2], [0, 0, 1, 2];
    FourOctets(age);
    assert identity[2..3] == [9] && identity[3..7] == age && U16(0, 1) == 1;
    assert U16(0, 0) == 0 && U16(1, 2) == 0x102;
  }
}
