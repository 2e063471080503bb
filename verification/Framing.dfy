/**
 TLS record framing (section 5.1 of RFC 8446): peeling complete records off the
 front of a byte buffer.
 */
module Framing {
  import opened Wire
  import opened Items

  const MAX_RECORD_PAYLOAD := 16_384
  const RECORD_HEADER_LEN := 5

  datatype RecordType =
    | ChangeCipherSpec
    | Alert
    | Handshake
    | ApplicationData
    | Other(code: byte)

  function FromU8(v: byte): RecordType {
    match v
    case 20 => ChangeCipherSpec
    case 21 => Alert
    case 22 => Handshake
    case 23 => ApplicationData
    case other => Other(other)
  }

  function TypeByte(t: RecordType): byte {
    match t
    case ChangeCipherSpec => 20
    case Alert => 21
    case Handshake => 22
    case ApplicationData => 23
    case Other(v) => v
  }

  datatype TlsRecord = TlsRecord(recordType: RecordType, legacyVersion: u16, payload: bytes)

  /** The records that framing can produce: bounded payload, no alias of a named type. */
  predicate RecordOk(r: TlsRecord) {
    |r.payload| <= MAX_RECORD_PAYLOAD && FromU8(TypeByte(r.recordType)) == r.recordType
  }

  /** The length field, saturating at the width of the header. */
  function LengthField(payload: bytes): u16 {
    if |payload| < 0x1_0000 then |payload| else 0xFFFF
  }

  function Header(r: TlsRecord): (h: bytes)
    ensures |h| == RECORD_HEADER_LEN
    ensures h[0] == TypeByte(r.recordType)
    ensures U16(h[1], h[2]) == r.legacyVersion && U16(h[3], h[4]) == LengthField(r.payload)
  {
    [TypeByte(r.recordType)] + PutU16(r.legacyVersion) + PutU16(LengthField(r.payload))
  }

  function EncodeRecord(r: TlsRecord): bytes {
    Header(r) + r.payload
  }

  // ----- the record at the front of a buffer

  function HeaderLength(buf: bytes): u16
    requires |buf| >= RECORD_HEADER_LEN
  {
    U16(buf[3], buf[4])
  }

  predicate OversizeHeader(buf: bytes) {
    |buf| >= RECORD_HEADER_LEN && HeaderLength(buf) > MAX_RECORD_PAYLOAD
  }

  predicate CompleteRecord(buf: bytes) {
    |buf| >= RECORD_HEADER_LEN &&
    HeaderLength(buf) <= MAX_RECORD_PAYLOAD &&
    RECORD_HEADER_LEN + HeaderLength(buf) <= |buf|
  }

  function FirstRecord(buf: bytes): Option<(TlsRecord, nat)> {
    if CompleteRecord(buf) then
      var end := RECORD_HEADER_LEN + HeaderLength(buf);
      Some((TlsRecord(FromU8(buf[0]), U16(buf[1], buf[2]), buf[RECORD_HEADER_LEN..end]), end))
    else None
  }

  /** What the loop leaves: no complete record, and no header seen to be oversize. */
  predicate Residual(buf: bytes) {
    !CompleteRecord(buf) && !OversizeHeader(buf)
  }

  const RECORDS := Codec(FirstRecord, EncodeRecord, RecordOk)

  lemma RecordsLawful()
    ensures Lawful(RECORDS)
  {
    forall buf: bytes | RECORDS.first(buf).Some?
      ensures TakenFrom(RECORDS, RECORDS.first(buf).value, buf)
    {
      var (r, n) := FirstRecord(buf).value;
      PutU16Inverse(buf[1], buf[2]);
      PutU16Inverse(buf[3], buf[4]);
      assert Header(r) == buf[..RECORD_HEADER_LEN];
      assert buf[..n] == buf[..RECORD_HEADER_LEN] + buf[RECORD_HEADER_LEN..n];
    }
    forall r: TlsRecord, rest: bytes | RECORDS.ok(r)
      ensures RECORDS.first(RECORDS.encode(r) + rest) == Some((r, |RECORDS.encode(r)|))
    {
      var s := EncodeRecord(r) + rest;
      assert s[..RECORD_HEADER_LEN] == Header(r);
      assert s[RECORD_HEADER_LEN..|EncodeRecord(r)|] == r.payload;
    }
  }

  // ----- reference framing

  /** All the complete records before the first incomplete or oversize one, and what follows them. */
  function Peel(buf: bytes): Chopped<TlsRecord> {
    Chop(RECORDS, buf)
  }

  function EncodeAll(rs: seq<TlsRecord>): bytes {
    EncodeItems(RECORDS, rs)
  }

  /** Framing the whole buffer runs into a header that announces too long a payload. */
  predicate Oversize(buf: bytes) {
    OversizeHeader(Peel(buf).rest)
  }

  datatype ParseError = RecordTooLong(length: u16)
  datatype ParseResult = Ok(records: seq<TlsRecord>, consumed: int) | Err(error: ParseError)

  function Parse(buf: bytes): ParseResult {
    var p := Peel(buf);
    if OversizeHeader(p.rest) then Err(RecordTooLong(HeaderLength(p.rest)))
    else Ok(p.items, |buf| - |p.rest|)
  }

  method ParseRecords(buf: bytes) returns (r: ParseResult)
    ensures r == Parse(buf)
  {
    var records := [];
    var cursor := 0;
    assert buf[0..] == buf;
    while |buf| - cursor >= RECORD_HEADER_LEN
      invariant 0 <= cursor <= |buf|
      invariant Extends(Peel(buf), records, Peel(buf[cursor..]))
      decreases |buf| - cursor
    {
      var header := buf[cursor..cursor + RECORD_HEADER_LEN];
      var recordType := FromU8(header[0]);
      var legacyVersion := U16(header[1], header[2]);
      var length := U16(header[3], header[4]);
      assert length == HeaderLength(buf[cursor..]);
      if length > MAX_RECORD_PAYLOAD {
        ChopNone(RECORDS, Peel(buf), records, buf[cursor..]);
        return Err(RecordTooLong(length));
      }
      var recordEnd := cursor + RECORD_HEADER_LEN + length;
      if recordEnd > |buf| {
        break;
      }
      var record := TlsRecord(recordType, legacyVersion, buf[cursor + RECORD_HEADER_LEN..recordEnd]);
      assert buf[cursor..][RECORD_HEADER_LEN..recordEnd - cursor] == record.payload;
      assert FirstRecord(buf[cursor..]) == Some((record, recordEnd - cursor));
      ChopTake(RECORDS, Peel(buf), records, buf[cursor..], record, recordEnd - cursor);
      assert buf[cursor..][recordEnd - cursor..] == buf[recordEnd..];
      records := records + [record];
      cursor := recordEnd;
    }
    ChopNone(RECORDS, Peel(buf), records, buf[cursor..]);
    return Ok(records, cursor);
  }

  // ----- framing is the inverse of encoding, and nothing else

  /** Whole records followed by octets that hold no further one are what peeling finds. */
  lemma PeelOf(buf: bytes, rs: seq<TlsRecord>, c: nat)
    requires AllOk(RECORDS, rs) && c <= |buf| && EncodeAll(rs) == buf[..c] && !CompleteRecord(buf[c..])
    ensures Peel(buf) == Chopped(rs, buf[c..])
  {
    RecordsLawful();
    assert buf == buf[..c] + buf[c..];
    ChopIsExact(RECORDS, buf, rs, buf[c..]);
  }

  lemma PeelSplits(buf: bytes) returns (c: nat)
    ensures c == |buf| - |Peel(buf).rest| && c <= |buf| && buf[c..] == Peel(buf).rest
    ensures AllOk(RECORDS, Peel(buf).items) && EncodeAll(Peel(buf).items) == buf[..c]
    ensures !CompleteRecord(Peel(buf).rest)
  {
    RecordsLawful();
    c := ChopSplits(RECORDS, buf);
  }

  // ----- what is left over

  /** Four octets whose last one already makes every length too long, which the loop does not notice yet. */
  predicate Doomed(buf: bytes) {
    |buf| == 4 && buf[3] > 0x40
  }

  /** An incomplete record: a proper prefix of the encoding of one. */
  ghost predicate Incomplete(buf: bytes) {
    exists r :: RecordOk(r) && buf < EncodeRecord(r)
  }

  ghost predicate Unfinished(buf: bytes) {
    Doomed(buf) || Incomplete(buf)
  }

  function Zeros(n: nat): (s: bytes)
    ensures |s| == n && forall i :: 0 <= i < n ==> s[i] == 0
  {
    seq(n, _ => 0)
  }

  /** A header that starts as the octets at hand do, with zeros for the missing ones. */
  function HeaderFrom(buf: bytes): (h: bytes)
    ensures |h| == RECORD_HEADER_LEN
  {
    if |buf| < RECORD_HEADER_LEN then buf + Zeros(RECORD_HEADER_LEN - |buf|) else buf[..RECORD_HEADER_LEN]
  }

  lemma HeaderFromFits(buf: bytes)
    requires Residual(buf) && !Doomed(buf)
    ensures HeaderLength(HeaderFrom(buf)) <= MAX_RECORD_PAYLOAD
    ensures |buf| >= RECORD_HEADER_LEN ==> |buf| < RECORD_HEADER_LEN + HeaderLength(HeaderFrom(buf))
  {
  }

  /** Any header with a length that fits, and as many octets, are a record. */
  lemma OctetsAreRecord(h: bytes, payload: bytes)
    requires |h| == RECORD_HEADER_LEN && |payload| == HeaderLength(h) <= MAX_RECORD_PAYLOAD
    ensures var r := TlsRecord(FromU8(h[0]), U16(h[1], h[2]), payload);
            RecordOk(r) && EncodeRecord(r) == h + payload
  {
    PutU16Inverse(h[1], h[2]);
    PutU16Inverse(h[3], h[4]);
    assert h == [h[0]] + [h[1], h[2]] + [h[3], h[4]];
  }

  /** Filled up with zeros, what the loop leaves is a record. */
  lemma FilledUp(buf: bytes) returns (r: TlsRecord)
    requires Residual(buf) && !Doomed(buf)
    ensures RecordOk(r) && buf < EncodeRecord(r)
  {
    hide RecordOk, EncodeRecord, U16, FromU8, HeaderLength, HeaderFrom;
    var h := HeaderFrom(buf);
    HeaderFromFits(buf);
    var missing: nat := HeaderLength(h) - if |buf| < RECORD_HEADER_LEN then 0 else |buf| - RECORD_HEADER_LEN;
    var payload := (if |buf| < RECORD_HEADER_LEN then [] else buf[RECORD_HEADER_LEN..]) + Zeros(missing);
    OctetsAreRecord(h, payload);
    HeaderStarts(buf);
    r := TlsRecord(FromU8(h[0]), U16(h[1], h[2]), payload);
    assert buf == (h + payload)[..|buf|];
  }

  lemma HeaderStarts(buf: bytes)
    ensures if |buf| < RECORD_HEADER_LEN then buf < HeaderFrom(buf) else HeaderFrom(buf) == buf[..RECORD_HEADER_LEN]
  {
  }

  lemma PrefixIsResidual(buf: bytes, r: TlsRecord)
    requires RecordOk(r) && buf < EncodeRecord(r)
    ensures Residual(buf) && !Doomed(buf)
  {
    var raw := EncodeRecord(r);
    assert raw[..RECORD_HEADER_LEN] == Header(r);
    assert U16(raw[3], raw[4]) == |r.payload|;
    if |buf| >= 4 {
      assert buf[3] == raw[3];
    }
    if |buf| >= RECORD_HEADER_LEN {
      assert buf[4] == raw[4];
    }
  }

  /** What the loop leaves is an incomplete record, or four octets that no record starts with. */
  lemma ResidualExact(buf: bytes)
    ensures Residual(buf) <==> Unfinished(buf)
    ensures !(Doomed(buf) && Incomplete(buf))
  {
    hide EncodeRecord;
    if Residual(buf) && !Doomed(buf) {
      var r := FilledUp(buf);
    }
    if r :| RecordOk(r) && buf < EncodeRecord(r) {
      PrefixIsResidual(buf, r);
    }
  }

  /** Whatever octet follows the four, the header is oversize. */
  lemma DoomedFails(buf: bytes, more: bytes)
    requires Doomed(buf) && more != []
    ensures Oversize(buf + more)
  {
  }

  /**
   Framing is exact: a buffer parses to `rs` with `c` octets consumed if and only if its first `c` octets are
   the encoding of `rs` and the remainder is an incomplete record or the four octets of a doomed header.
   */
  lemma ParseIsExact(buf: bytes, rs: seq<TlsRecord>, c: nat)
    ensures Parse(buf) == Ok(rs, c) <==>
            AllOk(RECORDS, rs) && c <= |buf| && EncodeAll(rs) == buf[..c] && Unfinished(buf[c..])
  {
    hide Unfinished;
    var k := PeelSplits(buf);
    ResidualExact(buf[k..]);
    if AllOk(RECORDS, rs) && c <= |buf| && EncodeAll(rs) == buf[..c] && Unfinished(buf[c..]) {
      ResidualExact(buf[c..]);
      PeelOf(buf, rs, c);
    }
  }

  /** Parsing fails exactly when some run of whole records is followed by an oversize header. */
  lemma ParseFailsExactly(buf: bytes, n: u16)
    ensures Parse(buf) == Err(RecordTooLong(n)) <==>
            exists rs, c :: AllOk(RECORDS, rs) && 0 <= c <= |buf| && EncodeAll(rs) == buf[..c] &&
                            OversizeHeader(buf[c..]) && HeaderLength(buf[c..]) == n
  {
    var k := PeelSplits(buf);
    if rs, c :| AllOk(RECORDS, rs) && 0 <= c <= |buf| && EncodeAll(rs) == buf[..c] &&
                OversizeHeader(buf[c..]) && HeaderLength(buf[c..]) == n {
      PeelOf(buf, rs, c);
    }
  }

  // ----- framing composes over arbitrary cuts

  /** An oversize header is never repaired by later octets. */
  lemma OversizeIsFinal(a: bytes, b: bytes)
    requires Oversize(a)
    ensures Peel(a + b).items == Peel(a).items && Oversize(a + b)
    ensures |Peel(a + b).rest| == |Peel(a).rest| + |b|
    ensures HeaderLength(Peel(a + b).rest) == HeaderLength(Peel(a).rest)
  {
    RecordsLawful();
    ChopComposes(RECORDS, a, b);
  }

  /** Parsing a buffer in two portions yields the records and the count of parsing it at once. */
  lemma ParseComposes(a: bytes, b: bytes)
    requires Parse(a).Ok? && Parse(Peel(a).rest + b).Ok?
    ensures var p := Parse(a);
            var q := Parse(Peel(a).rest + b);
            Parse(a + b) == Ok(p.records + q.records, p.consumed + q.consumed)
    ensures 0 <= Parse(a).consumed <= |a| && Peel(a).rest == a[Parse(a).consumed..]
  {
    RecordsLawful();
    var k := ChopSplits(RECORDS, a);
    ChopComposes(RECORDS, a, b);
  }

  /** The failure of a stream shows when the fifth octet of the bad header is there, not before. */
  lemma OversizeShowsAtFifthOctet(stream: bytes, n: nat)
    requires Oversize(stream) && n <= |stream|
    ensures Oversize(stream[..n]) <==> n >= |stream| - |Peel(stream).rest| + RECORD_HEADER_LEN
  {
    var c := PeelSplits(stream);
    var records, bad := Peel(stream).items, Peel(stream).rest;
    assert stream == stream[..n] + stream[n..];
    if n >= c + RECORD_HEADER_LEN {
      assert stream[..n][..c] == stream[..c] && stream[..n][c..] == bad[..n - c];
      PeelOf(stream[..n], records, c);
    } else if Oversize(stream[..n]) {
      OversizeIsFinal(stream[..n], stream[n..]);
    }
  }
}
