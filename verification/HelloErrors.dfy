/**
 Which error a hello that is cut short gives: the size of the first field that is not all there.
 */
module HelloErrors {
  import opened Wire
  import opened Items
  import opened Extensions
  import opened Hello
  import opened HelloLaws

  /** The size of the field in which `k` octets end, of fields with these sizes. */
  function CutIn(sizes: seq<nat>, k: nat): nat
    requires sizes != []
    decreases |sizes|
  {
    if k < sizes[0] || |sizes| == 1 then sizes[0] else CutIn(sizes[1..], k - sizes[0])
  }

  lemma CutCons(n: nat, more: seq<nat>, k: nat)
    requires more != []
    ensures CutIn([n] + more, k) == if k < n then n else CutIn(more, k - n)
  {
    assert ([n] + more)[1..] == more;
  }

  // ----- one field cut short

  lemma BytesCut(field: bytes, rest: bytes, k: nat)
    requires k <= |field| + |rest|
    ensures TakeBytes((field + rest)[..k], |field|) ==
            if k < |field| then Err(Truncated(|field|)) else Ok((field, rest[..k - |field|]))
  {
    if k >= |field| {
      assert (field + rest)[..k] == field + rest[..k - |field|];
      TakeBytesExact((field + rest)[..k], field, rest[..k - |field|]);
    }
  }

  lemma OctetCut(n: byte, rest: bytes, k: nat)
    requires k <= 1 + |rest|
    ensures TakeU8(([n] + rest)[..k]) == if k < 1 then Err(Truncated(1)) else Ok((n, rest[..k - 1]))
  {
    if k >= 1 {
      assert ([n] + rest)[..k] == [n] + rest[..k - 1];
      TakeU8Exact(([n] + rest)[..k], n, rest[..k - 1]);
    }
  }

  lemma PairCut(n: u16, rest: bytes, k: nat)
    requires k <= 2 + |rest|
    ensures TakeU16((PutU16(n) + rest)[..k]) == if k < 2 then Err(Truncated(2)) else Ok((n, rest[..k - 2]))
  {
    if k >= 2 {
      assert (PutU16(n) + rest)[..k] == PutU16(n) + rest[..k - 2];
      TakeU16Exact((PutU16(n) + rest)[..k], n, rest[..k - 2]);
    }
  }

  // ----- a ClientHello cut short

  function CompressionSizes(m: ClientHello): seq<nat> {
    [1] + [|m.compressionMethods|]
  }

  function SuitesSizes(m: ClientHello): seq<nat> {
    [2] + ([2 * |m.cipherSuites|] + CompressionSizes(m))
  }

  /** Version, random, session id, cipher suites and compression methods, with their lengths. */
  function ClientSizes(m: ClientHello): seq<nat> {
    [2] + ([32] + ([1] + ([|m.sessionId|] + SuitesSizes(m))))
  }

  lemma CompressionCut(m: ClientHello, tail: bytes, k: nat)
    requires ClientHelloOk(m) && k < 1 + |m.compressionMethods|
    ensures |Compression(m, tail)| == 1 + |m.compressionMethods| + |tail|
    ensures match TakeU8(Compression(m, tail)[..k])
            case Err(e) => e == Truncated(CutIn(CompressionSizes(m), k))
            case Ok((j, c)) => TakeBytes(c, j) == Err(Truncated(CutIn(CompressionSizes(m), k)))
  {
    hide TakeBytes, TakeU8;
    OctetCut(|m.compressionMethods|, m.compressionMethods + tail, k);
    CutCons(1, [|m.compressionMethods|], k);
    if k >= 1 {
      BytesCut(m.compressionMethods, tail, k - 1);
    }
  }

  lemma SuitesCut(m: ClientHello, tail: bytes, k: nat)
    requires ClientHelloOk(m) && k < 3 + 2 * |m.cipherSuites| + |m.compressionMethods|
    requires |Suites(m, tail)| == 3 + 2 * |m.cipherSuites| + |m.compressionMethods| + |tail|
    ensures match TakeU16(Suites(m, tail)[..k])
            case Err(e) => e == Truncated(CutIn(SuitesSizes(m), k))
            case Ok((n, c)) =>
              n == 2 * |m.cipherSuites| &&
              match TakeBytes(c, n)
              case Err(e) => e == Truncated(CutIn(SuitesSizes(m), k))
              case Ok((s, c)) =>
                match TakeU8(c)
                case Err(e) => e == Truncated(CutIn(SuitesSizes(m), k))
                case Ok((j, c)) => TakeBytes(c, j) == Err(Truncated(CutIn(SuitesSizes(m), k)))
  {
    hide TakeU16, TakeBytes, TakeU8, EncodeItems, Compression, CompressionSizes;
    var suites, c := EncodeItems(U16S, m.cipherSuites), Compression(m, tail);
    SuitesExact(suites, m.cipherSuites);
    PairCut(2 * |m.cipherSuites|, suites + c, k);
    CutCons(2, [2 * |m.cipherSuites|] + CompressionSizes(m), k);
    CompressionSizesTwo(m);
    if k >= 2 {
      BytesCut(suites, c, k - 2);
      CutCons(2 * |m.cipherSuites|, CompressionSizes(m), k - 2);
      if k - 2 >= |suites| {
        CompressionCut(m, tail, k - 2 - |suites|);
      }
    }
  }

  lemma CompressionSizesTwo(m: ClientHello)
    ensures CompressionSizes(m) != []
  {
  }

  /**
   A ClientHello body cut before the end of its compression methods gives the size of the field that is not
   all there.
   */
  lemma ClientCut(m: ClientHello, tail: bytes, k: nat)
    requires ClientHelloOk(m) && k < 38 + |m.sessionId| + 2 * |m.cipherSuites| + |m.compressionMethods|
    ensures |ClientBody(m, tail)| >= k
    ensures ClientFields(ClientBody(m, tail)[..k]) == Err(Truncated(CutIn(ClientSizes(m), k)))
  {
    hide TakeU16, TakeBytes, TakeU8, Suites, SuitesSizes, ExtensionBlock, Chop;
    var s, sizes := Suites(m, tail), SuitesSizes(m);
    SuitesLength(m, tail);
    PairCut(m.legacyVersion, m.random + SessionAndSuites(m, tail), k);
    CutCons(2, [32] + ([1] + ([|m.sessionId|] + sizes)), k);
    if k >= 2 {
      BytesCut(m.random, SessionAndSuites(m, tail), k - 2);
      CutCons(32, [1] + ([|m.sessionId|] + sizes), k - 2);
      if k >= 34 {
        OctetCut(|m.sessionId|, m.sessionId + s, k - 34);
        CutCons(1, [|m.sessionId|] + sizes, k - 34);
        if k >= 35 {
          BytesCut(m.sessionId, s, k - 35);
          CutCons(|m.sessionId|, sizes, k - 35);
          if k - 35 >= |m.sessionId| {
            SuitesCut(m, tail, k - 35 - |m.sessionId|);
          }
        }
      }
    }
  }

  lemma SuitesLength(m: ClientHello, tail: bytes)
    requires ClientHelloOk(m)
    ensures |Suites(m, tail)| == 3 + 2 * |m.cipherSuites| + |m.compressionMethods| + |tail| && SuitesSizes(m) != []
  {
    SuitesExact(EncodeItems(U16S, m.cipherSuites), m.cipherSuites);
  }

  /** A list of cipher suites of odd length is refused before it is read. */
  lemma OddSuitesRefused(version: u16, random: bytes, id: bytes, n: u16, rest: bytes)
    requires |random| == 32 && |id| < 0x100 && n % 2 == 1
    ensures ClientFields(PutU16(version) + (random + ([|id|] + (id + (PutU16(n) + rest))))) == Err(OddCipherSuites)
  {
    hide TakeU16, TakeBytes, TakeU8, ExtensionBlock, Chop;
    TakeU16Exact(PutU16(version) + (random + ([|id|] + (id + (PutU16(n) + rest)))), version,
                 random + ([|id|] + (id + (PutU16(n) + rest))));
    TakeBytesExact(random + ([|id|] + (id + (PutU16(n) + rest))), random, [|id|] + (id + (PutU16(n) + rest)));
    TakeU8Exact([|id|] + (id + (PutU16(n) + rest)), |id|, id + (PutU16(n) + rest));
    TakeBytesExact(id + (PutU16(n) + rest), id, PutU16(n) + rest);
    TakeU16Exact(PutU16(n) + rest, n, rest);
  }

  // ----- a ServerHello cut short

  /** Version, random, session id with its length, cipher suite and compression method. */
  function ServerSizes(m: ServerHello): seq<nat> {
    [2] + ([32] + ([1] + ([|m.sessionIdEcho|] + ([2] + [1]))))
  }

  lemma ServerCut(m: ServerHello, tail: bytes, k: nat)
    requires ServerHelloOk(m) && k < 38 + |m.sessionIdEcho|
    ensures |ServerBody(m, tail)| >= k
    ensures ServerFields(ServerBody(m, tail)[..k]) == Err(Truncated(CutIn(ServerSizes(m), k)))
  {
    hide TakeU16, TakeBytes, TakeU8, ExtensionBlock;
    var s := SuiteAndCompression(m, tail);
    PairCut(m.legacyVersion, m.random + ([|m.sessionIdEcho|] + (m.sessionIdEcho + s)), k);
    CutCons(2, [32] + ([1] + ([|m.sessionIdEcho|] + ([2] + [1]))), k);
    if k >= 2 {
      BytesCut(m.random, [|m.sessionIdEcho|] + (m.sessionIdEcho + s), k - 2);
      CutCons(32, [1] + ([|m.sessionIdEcho|] + ([2] + [1])), k - 2);
      if k >= 34 {
        OctetCut(|m.sessionIdEcho|, m.sessionIdEcho + s, k - 34);
        CutCons(1, [|m.sessionIdEcho|] + ([2] + [1]), k - 34);
        if k >= 35 {
          BytesCut(m.sessionIdEcho, s, k - 35);
          CutCons(|m.sessionIdEcho|, [2] + [1], k - 35);
          if k - 35 >= |m.sessionIdEcho| {
            PairCut(m.cipherSuite, [m.compressionMethod] + tail, k - 35 - |m.sessionIdEcho|);
            CutCons(2, [1], k - 35 - |m.sessionIdEcho|);
            if k - 37 >= |m.sessionIdEcho| {
              OctetCut(m.compressionMethod, tail, k - 37 - |m.sessionIdEcho|);
            }
          }
        }
      }
    }
  }

  /** A block of one octet lacks its length; any other lacks what it announces. */
  lemma BlockCut(block: bytes)
    ensures ExtensionBlock(block) == Err(Truncated(2)) <== |block| == 1
    ensures |block| >= 2 && |block| - 2 < U16(block[0], block[1]) ==>
              ExtensionBlock(block) == Err(Truncated(U16(block[0], block[1])))
    ensures ExtensionBlock(block).Err? ==>
              |block| == 1 || (|block| >= 2 && |block| - 2 < U16(block[0], block[1]))
  {
  }
}
