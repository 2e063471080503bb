/**
 What the extension decoders accept: each one is tied to the encoding it inverts, in both directions.
 */
module ExtensionLaws {
  import opened Wire
  import opened Items
  import opened Extensions

  /** The body is a two-octet length followed by the encoded items and nothing else. */
  ghost predicate IsVectorOf<T(!new)>(c: Codec<T>, items: seq<T>, body: bytes) {
    AllOk(c, items) && Fits16(EncodeItems(c, items)) && body == Vector16(EncodeItems(c, items))
  }

  lemma OpaqueExact(body: bytes, s: bytes)
    ensures ReadOpaqueU16(body) == Some(s) <==> Fits16(s) && body == Vector16(s)
  {
  }

  lemma VectorExact<T(!new)>(c: Codec<T>, items: seq<T>, body: bytes)
    requires Lawful(c)
    ensures IsVectorOf(c, items, body) <==>
            ReadOpaqueU16(body).Some? && Chop(c, ReadOpaqueU16(body).value) == Chopped(items, [])
  {
    OpaqueExact(body, EncodeItems(c, items));
    EmptyHoldsNone(c);
    if ReadOpaqueU16(body).Some? {
      var list := ReadOpaqueU16(body).value;
      ChopIsExact(c, list, items, []);
      assert EncodeItems(c, items) + [] == EncodeItems(c, items);
    }
  }

  /** Items of two octets each leave an odd octet over if and only if the list is odd. */
  lemma {:induction false} PairsLeaveParity<T(!new)>(c: Codec<T>, list: bytes)
    requires forall buf: bytes {:trigger c.first(buf)} ::
               if |buf| >= 2 then c.first(buf).Some? && c.first(buf).value.1 == 2 else c.first(buf).None?
    ensures |Chop(c, list).rest| == |list| % 2
    ensures 2 * |Chop(c, list).items| + |Chop(c, list).rest| == |list|
    decreases |list|
  {
    if |list| < 2 {
      assert c.first(list).None?;
    } else {
      assert c.first(list).Some? && c.first(list).value.1 == 2;
      PairsLeaveParity(c, list[2..]);
    }
  }

  // ----- lists that are read exactly

  lemma AlpnExact(body: bytes, protocols: seq<bytes>)
    ensures AlpnOf(body) == Some(protocols) <==> IsVectorOf(PROTOCOLS, protocols, body)
  {
    ProtocolsLawful();
    VectorExact(PROTOCOLS, protocols, body);
  }

  lemma SupportedGroupsExact(body: bytes, groups: seq<NamedGroup>)
    ensures SupportedGroupsOf(body) == Some(groups) <==> IsVectorOf(GROUPS, groups, body)
  {
    GroupsLawful();
    VectorExact(GROUPS, groups, body);
    if ReadOpaqueU16(body).Some? {
      PairsLeaveParity(GROUPS, ReadOpaqueU16(body).value);
    }
  }

  lemma SignatureAlgorithmsExact(body: bytes, schemes: seq<u16>)
    ensures SignatureAlgorithmsOf(body) == Some(schemes) <==> IsVectorOf(U16S, schemes, body)
  {
    U16sLawful();
    VectorExact(U16S, schemes, body);
    if ReadOpaqueU16(body).Some? {
      PairsLeaveParity(U16S, ReadOpaqueU16(body).value);
    }
  }

  lemma PskKeyExchangeModesExact(body: bytes, modes: bytes)
    ensures PskKeyExchangeModesOf(body) == Some(modes) <==> |modes| < 0x100 && body == [|modes|] + modes
  {
  }

  // ----- lists whose decoder tolerates a remainder

  /**
   server_name: the list may end in up to two stray octets, and octets after the list are ignored.
   Apart from these the body is the encoding of the entries.
   */
  lemma ServerNameExact(body: bytes, names: seq<ServerNameEntry>)
    ensures ServerNameOf(body) == Some(names) <==>
            |body| >= 2 && 2 + U16(body[0], body[1]) <= |body| && AllOk(SERVER_NAMES, names) &&
            var list := body[2..2 + U16(body[0], body[1])];
            EncodeItems(SERVER_NAMES, names) <= list && |list| - |EncodeItems(SERVER_NAMES, names)| < 3
  {
    ServerNamesLawful();
    if |body| >= 2 && 2 + U16(body[0], body[1]) <= |body| {
      ShortRemainder(SERVER_NAMES, body[2..2 + U16(body[0], body[1])], names, 3);
    }
  }

  /** pre_shared_key: the identities are read exactly, up to one stray octet; the binder list is only measured. */
  lemma PreSharedKeyExact(body: bytes, ids: seq<PskIdentity>, bindersLen: nat)
    ensures PreSharedKeyOf(body) == Some(PreSharedKey(ids, bindersLen)) <==>
            |body| >= 2 && 2 + U16(body[0], body[1]) + 2 <= |body| && AllOk(IDENTITIES, ids) &&
            var end := 2 + U16(body[0], body[1]);
            EncodeItems(IDENTITIES, ids) <= body[2..end] && end - 2 - |EncodeItems(IDENTITIES, ids)| < 2 &&
            bindersLen == U16(body[end], body[end + 1])
  {
    IdentitiesLawful();
    if |body| >= 2 && 2 + U16(body[0], body[1]) + 2 <= |body| {
      ShortRemainder(IDENTITIES, body[2..2 + U16(body[0], body[1])], ids, 2);
    }
  }

  lemma ShortRemainder<T(!new)>(c: Codec<T>, list: bytes, items: seq<T>, k: nat)
    requires Lawful(c)
    requires forall buf: bytes {:trigger c.first(buf)} :: |buf| < k ==> c.first(buf).None?
    ensures Chop(c, list).items == items && |Chop(c, list).rest| < k <==>
            AllOk(c, items) && EncodeItems(c, items) <= list && |list| - |EncodeItems(c, items)| < k
  {
    var n := |EncodeItems(c, items)|;
    var m := ChopSplits(c, list);
    if AllOk(c, items) && EncodeItems(c, items) <= list && |list| - n < k {
      assert c.first(list[n..]).None?;
      assert list == EncodeItems(c, items) + list[n..];
      ChopIsExact(c, list, items, list[n..]);
    }
  }

  /** Any server_name list that can be written is read back, whatever follows it. */
  lemma ServerNameRoundTrip(names: seq<ServerNameEntry>, trailing: bytes)
    requires AllOk(SERVER_NAMES, names) && Fits16(EncodeItems(SERVER_NAMES, names))
    ensures ServerNameOf(Vector16(EncodeItems(SERVER_NAMES, names)) + trailing) == Some(names)
  {
    Vector16Front(EncodeItems(SERVER_NAMES, names), trailing);
    ServerNameExact(Vector16(EncodeItems(SERVER_NAMES, names)) + trailing, names);
  }

  /** Any identity list that can be written is read back with the length of the binders after it. */
  lemma PreSharedKeyRoundTrip(ids: seq<PskIdentity>, binders: bytes)
    requires AllOk(IDENTITIES, ids) && Fits16(EncodeItems(IDENTITIES, ids)) && Fits16(binders)
    ensures PreSharedKeyOf(Vector16(EncodeItems(IDENTITIES, ids)) + Vector16(binders)) ==
            Some(PreSharedKey(ids, |binders|))
  {
    var list := EncodeItems(IDENTITIES, ids);
    Vector16Front(list, Vector16(binders));
    var body := Vector16(list) + Vector16(binders);
    assert body[2 + |list|] == Vector16(binders)[0] && body[3 + |list|] == Vector16(binders)[1];
    PreSharedKeyExact(body, ids, |binders|);
  }

  // ----- supported_versions: two wire forms

  function ClientVersions(versions: seq<u16>): bytes
    requires |versions| < 0x80
  {
    [2 * |versions|] + EncodeItems(U16S, versions)
  }

  lemma {:induction false} PairsLength(versions: seq<u16>)
    ensures |EncodeItems(U16S, versions)| == 2 * |versions|
  {
    if versions == [] {
    } else {
      PairsLength(versions[1..]);
    }
  }

  /** A body decodes to `versions` exactly if it is their client form, or the server form of one version. */
  lemma SupportedVersionsExact(body: bytes, versions: seq<u16>)
    ensures SupportedVersionsOf(body) == Some(versions) <==>
            (|versions| < 0x80 && body == ClientVersions(versions)) ||
            (|versions| == 1 && body == PutU16(versions[0]))
  {
    U16sLawful();
    PairsLength(versions);
    if |body| == 2 {
      PutU16Inverse(body[0], body[1]);
      assert body == [body[0], body[1]];
      assert |versions| == 1 ==> versions == [versions[0]];
    } else if body != [] {
      assert body == [body[0]] + body[1..];
      PairsLeaveParity(U16S, body[1..]);
      ChopIsExact(U16S, body[1..], versions, []);
      assert EncodeItems(U16S, versions) + [] == EncodeItems(U16S, versions);
    }
  }

  /** No body is at once the client form of one list and the server form of another. */
  lemma SupportedVersionsFormsDiffer(versions: seq<u16>, selected: u16)
    requires |versions| < 0x80
    ensures ClientVersions(versions) != PutU16(selected)
  {
  }

  // ----- key_share: two wire forms

  lemma KeyShareEntriesExact(body: bytes, entries: seq<KeyShareEntry>)
    ensures KeyShareEntriesOf(body) == Some(entries) <==>
            AllOk(KEY_SHARES, entries) && body == EncodeItems(KEY_SHARES, entries)
  {
    KeySharesLawful();
    ChopIsExact(KEY_SHARES, body, entries, []);
    assert EncodeItems(KEY_SHARES, entries) + [] == EncodeItems(KEY_SHARES, entries);
  }

  lemma EntriesAreLong(entries: seq<KeyShareEntry>)
    requires AllOk(KEY_SHARES, entries) && entries != []
    ensures |EncodeItems(KEY_SHARES, entries)| >= 4
  {
  }

  /**
   A body decodes to `entries` exactly if it is the client list of one or more of them, or their bare
   concatenation and its first two octets do not happen to count the rest.
   */
  lemma KeyShareExact(body: bytes, entries: seq<KeyShareEntry>)
    ensures KeyShareOf(body) == Some(entries) <==>
            (entries != [] && IsVectorOf(KEY_SHARES, entries, body)) ||
            (AllOk(KEY_SHARES, entries) && body == EncodeItems(KEY_SHARES, entries) && !ListForm(body))
  {
    var list := EncodeItems(KEY_SHARES, entries);
    if ListForm(body) {
      ListFormExact(body, list);
      KeyShareEntriesExact(body[2..], entries);
      if AllOk(KEY_SHARES, entries) && entries != [] {
        EntriesAreLong(entries);
      }
    } else {
      KeyShareEntriesExact(body, entries);
      if IsVectorOf(KEY_SHARES, entries, body) && entries != [] {
        EntriesAreLong(entries);
        ListFormExact(body, list);
      }
    }
  }

  /** The list form of four octets or more is the vector of what follows its first two. */
  lemma ListFormExact(body: bytes, list: bytes)
    ensures ListForm(body) && body[2..] == list <==> |list| >= 2 && Fits16(list) && body == Vector16(list)
  {
    if ListForm(body) {
      Vector16Inverse(body);
      assert body[2..|body|] == body[2..] && body[..|body|] == body;
    }
    if Fits16(list) {
      Vector16Front(list, []);
      assert Vector16(list) + [] == Vector16(list);
    }
  }

  /** The client list comes back if and only if it is not empty. */
  lemma KeyShareClientRoundTrip(entries: seq<KeyShareEntry>)
    requires AllOk(KEY_SHARES, entries) && Fits16(EncodeItems(KEY_SHARES, entries))
    ensures KeyShareOf(Vector16(EncodeItems(KEY_SHARES, entries))) == Some(entries) <==> entries != []
  {
    KeyShareExact(Vector16(EncodeItems(KEY_SHARES, entries)), entries);
  }

  /** The single entry of a server comes back if and only if its group code is not its key length plus two. */
  lemma KeyShareServerRoundTrip(e: KeyShareEntry)
    requires KeyShareOk(e)
    ensures KeyShareOf(EncodeKeyShare(e)) == Some([e]) <==> e.groupCode != |e.keyExchange| + 2
  {
    var body := EncodeKeyShare(e);
    EncodeOne(KEY_SHARES, e);
    KeyShareExact(body, [e]);
    TaggedFront(e.groupCode, e.keyExchange, []);
    assert body + [] == body;
  }

  lemma EncodeOne<T>(c: Codec<T>, t: T)
    ensures EncodeItems(c, [t]) == c.encode(t)
  {
  }

  /** An entry for x25519 with a key of 27 octets is a server form that does not come back. */
  lemma KeyShareServerFormLost()
    ensures var e := KeyShareEntry(X25519, 0x1d, seq(27, _ => 0));
            KeyShareOk(e) && KeyShareOf(EncodeKeyShare(e)) != Some([e])
  {
    KeyShareServerRoundTrip(KeyShareEntry(X25519, 0x1d, seq(27, _ => 0)));
  }
}
