/** The framing of the write-ahead log and its recovery scan (src/persist/wal.rs). */
module Wal {
  import opened Types
  import opened Bytes
  import opened Disk

  /**
   The record serializer and the checksum. `ser` need not be repeatable byte
   for byte (a record holds hash maps), nor need it serve every record (weights
   here are reals): what counts of the records in a log is that each payload
   decodes to its record and that re-encoding gives the same length.
   */
  datatype Codec = Codec(ser: WalRecord -> seq<byte>, de: seq<byte> -> Option<WalRecord>, crc: seq<byte> -> nat)

  /** Checksums have 32 bits. */
  ghost predicate CrcFits(c: Codec) {
    forall b :: c.crc(b) < U32
  }

  /** `payload` is some serialization of `r`. */
  predicate Encodes(c: Codec, payload: seq<byte>, r: WalRecord) {
    c.de(payload) == Some(r) && |payload| == |c.ser(r)| && |payload| < U32
  }

  const HEADER := 8

  function Frame(c: Codec, payload: seq<byte>): seq<byte> {
    var len := ToLe(|payload|, 4);
    len + ToLe(c.crc(len + payload), 4) + payload
  }

  /** Byte by byte: the length of the payload, then the checksum over those four bytes and the payload, both little-endian. */
  lemma FrameBytes(c: Codec, payload: seq<byte>)
    ensures var f := Frame(c, payload);
      && |f| == 8 + |payload| && f[8..] == payload
      && (forall i :: 0 <= i < 4 ==> f[i] == (|payload| / Pow256(i)) % 256)
      && (forall i :: 0 <= i < 4 ==> f[4 + i] == (c.crc(f[..4] + payload) / Pow256(i)) % 256)
  {
    var f, len := Frame(c, payload), ToLe(|payload|, 4);
    assert f[..4] == len;
    forall i | 0 <= i < 4
      ensures f[i] == (|payload| / Pow256(i)) % 256
      ensures f[4 + i] == (c.crc(len + payload) / Pow256(i)) % 256
    {
      LittleEndian(|payload|, 4, i);
      LittleEndian(c.crc(len + payload), 4, i);
      assert f[i] == len[i] && f[4 + i] == ToLe(c.crc(len + payload), 4)[i];
    }
  }

  predicate IsFrame(c: Codec, f: seq<byte>, r: WalRecord) {
    |f| >= HEADER && f == Frame(c, f[HEADER..]) && Encodes(c, f[HEADER..], r)
  }

  /**
   encode_frame: refused only when the payload does not fit a u32 length. What comes
   out carries the length, the checksum over length and payload, and the payload; it
   is a frame of every record that the payload decodes to.
   */
  method EncodeFrame(c: Codec, r: WalRecord) returns (out: Result<seq<byte>, ()>)
    ensures out.Ok? <==> |c.ser(r)| < U32
    ensures out.Ok? ==> out.value == Frame(c, c.ser(r)) && |out.value| == FrameLen(c, r)
    ensures out.Ok? && c.de(c.ser(r)) == Some(r) ==> IsFrame(c, out.value, r)
  {
    var payload := c.ser(r);
    if |payload| > U32 - 1 {
      return Err(());
    }
    var len := ToLe(|payload|, 4);
    var crc := c.crc(len + payload);
    var buf := [];
    buf := buf + len;
    buf := buf + ToLe(crc, 4);
    buf := buf + payload;
    assert buf[HEADER..] == payload;
    return Ok(buf);
  }

  /** The length recovery gets by encoding the record again. */
  function FrameLen(c: Codec, r: WalRecord): nat { HEADER + |c.ser(r)| }

  // ---------------------------------------------------------------------
  // Such codecs exist
  // ---------------------------------------------------------------------

  function IndexOf(recs: seq<WalRecord>, r: WalRecord): (i: nat)
    ensures r in recs ==> i < |recs| && recs[i] == r
  {
    if recs == [] || recs[0] == r then 0 else 1 + IndexOf(recs[1..], r)
  }

  /** Writes the place of a record in a table. */
  function TableCodec(table: seq<WalRecord>): Codec {
    Codec(
      (r: WalRecord) => ToLe(IndexOf(table, r), 8),
      (b: seq<byte>) => if FromLe(b) < |table| then Some(table[FromLe(b)]) else None,
      (b: seq<byte>) => |b| % U32)
  }

  function TableFrame(table: seq<WalRecord>, r: WalRecord): seq<byte> {
    Frame(TableCodec(table), ToLe(IndexOf(table, r), 8))
  }

  /** Any log whatever is served by some codec, and has its frames. */
  lemma EveryLogHasFrames(recs: seq<WalRecord>)
    requires |recs| < Pow256(8)
    ensures CrcFits(TableCodec(recs))
    ensures AreFrames(TableCodec(recs), seq(|recs|, i requires 0 <= i < |recs| => TableFrame(recs, recs[i])), recs)
  {
    forall i | 0 <= i < |recs| ensures IsFrame(TableCodec(recs), TableFrame(recs, recs[i]), recs[i]) {
      LeRoundTrip(IndexOf(recs, recs[i]), 8);
      assert TableFrame(recs, recs[i])[HEADER..] == ToLe(IndexOf(recs, recs[i]), 8);
    }
  }

  // ---------------------------------------------------------------------
  // The scan
  // ---------------------------------------------------------------------

  datatype ScanResult = ScanResult(records: seq<WalRecord>, validEnd: nat, tailTruncated: bool, dropped: nat)

  datatype Head =
    | CleanEnd
    | TornTail
    | Undecodable
    | Intact(rec: WalRecord, len: nat)

  /** What the bytes at one frame boundary amount to. Lengths are checked before anything is sliced. */
  function ReadFrame(c: Codec, buf: seq<byte>): (h: Head)
    ensures h.Intact? ==> HEADER + h.len <= |buf|
  {
    if buf == [] then CleanEnd
    else if |buf| < HEADER then TornTail
    else
      var len := FromLe(buf[..4]);
      if len > |buf| - HEADER then TornTail
      else if c.crc(ToLe(len, 4) + buf[HEADER..HEADER + len]) != FromLe(buf[4..8]) then TornTail
      else match c.de(buf[HEADER..HEADER + len])
        case None => Undecodable
        case Some(rec) => Intact(rec, len)
  }

  /** The error is the offset of an intact frame that does not decode. */
  function Scan(c: Codec, buf: seq<byte>): Result<ScanResult, nat>
    decreases |buf|
  {
    match ReadFrame(c, buf)
    case CleanEnd => Ok(ScanResult([], 0, false, 0))
    case TornTail => Ok(ScanResult([], 0, true, 1))
    case Undecodable => Err(0)
    case Intact(rec, len) => After(rec, HEADER + len, Scan(c, buf[HEADER + len..]))
  }

  function After(rec: WalRecord, n: nat, rest: Result<ScanResult, nat>): Result<ScanResult, nat> {
    match rest
    case Err(at) => Err(n + at)
    case Ok(r) => Ok(ScanResult([rec] + r.records, n + r.validEnd, r.tailTruncated, r.dropped))
  }

  /** The scan of a suffix, as part of the scan of the whole buffer. */
  function Prepend(records: seq<WalRecord>, n: nat, rest: Result<ScanResult, nat>): Result<ScanResult, nat> {
    match rest
    case Err(at) => Err(n + at)
    case Ok(r) => Ok(ScanResult(records + r.records, n + r.validEnd, r.tailTruncated, r.dropped))
  }

  lemma PrependNothing(records: seq<WalRecord>, n: nat, rest: Result<ScanResult, nat>)
    ensures Prepend([], 0, rest) == rest
    ensures rest.Ok? && rest.value.records == [] ==>
      Prepend(records, n, rest) == Ok(ScanResult(records, n + rest.value.validEnd, rest.value.tailTruncated, rest.value.dropped))
  {
    if rest.Ok? {
      assert [] + rest.value.records == rest.value.records;
      assert rest.value.records == [] ==> records + rest.value.records == records;
    }
  }

  /** The scan of the buffer is `records`, found before `offset`, followed by the scan of the rest. */
  ghost predicate ScannedTo(c: Codec, buf: seq<byte>, offset: nat, records: seq<WalRecord>) {
    offset <= |buf| && Scan(c, buf) == Prepend(records, offset, Scan(c, buf[offset..]))
  }

  lemma ScanStarts(c: Codec, buf: seq<byte>)
    ensures ScannedTo(c, buf, 0, [])
  {
    assert buf[0..] == buf;
    PrependNothing([], 0, Scan(c, buf));
  }

  /** One turn of the scan loop over an intact frame. */
  lemma ScanAdvances(c: Codec, buf: seq<byte>, offset: nat, records: seq<WalRecord>, rec: WalRecord, len: nat)
    requires ScannedTo(c, buf, offset, records)
    requires ReadFrame(c, buf[offset..]) == Intact(rec, len)
    ensures ScannedTo(c, buf, offset + HEADER + len, records + [rec])
  {
    assert buf[offset..][HEADER + len..] == buf[offset + HEADER + len..];
    PrependAfter(records, offset, rec, HEADER + len, Scan(c, buf[offset + HEADER + len..]));
  }

  lemma PrependAfter(records: seq<WalRecord>, n: nat, rec: WalRecord, m: nat, rest: Result<ScanResult, nat>)
    ensures Prepend(records, n, After(rec, m, rest)) == Prepend(records + [rec], n + m, rest)
  {
    if rest.Ok? {
      assert records + ([rec] + rest.value.records) == (records + [rec]) + rest.value.records;
    }
  }

  lemma ScanStops(c: Codec, buf: seq<byte>, offset: nat, records: seq<WalRecord>)
    requires ScannedTo(c, buf, offset, records)
    ensures match ReadFrame(c, buf[offset..])
      case CleanEnd => Scan(c, buf) == Ok(ScanResult(records, offset, false, 0))
      case TornTail => Scan(c, buf) == Ok(ScanResult(records, offset, true, 1))
      case Undecodable => Scan(c, buf) == Err(offset)
      case Intact(_, _) => true
  {
    PrependNothing(records, offset, Scan(c, buf[offset..]));
  }

  /** The header fields and the payload, read straight from the buffer. */
  lemma FieldsInPlace(buf: seq<byte>, offset: nat, len: nat)
    requires offset + HEADER + len <= |buf|
    ensures buf[offset..offset + 4] == buf[offset..][..4]
    ensures buf[offset + 4..offset + 8] == buf[offset..][4..8]
    ensures buf[offset + HEADER..offset + HEADER + len] == buf[offset..][HEADER..HEADER + len]
  {
  }

  /** The frame at an offset: its header, its length against what is left, its checksum, its payload. */
  method FrameAt(c: Codec, buf: seq<byte>, offset: nat) returns (r: Head)
    requires offset <= |buf|
    ensures r == ReadFrame(c, buf[offset..])
  {
    var remaining := |buf| - offset;
    if remaining == 0 {
      return CleanEnd;
    }
    if remaining < HEADER {
      return TornTail;
    }
    FieldsInPlace(buf, offset, 0);
    var len := FromLe(buf[offset..offset + 4]);
    var crcStored := FromLe(buf[offset + 4..offset + 8]);
    if len > remaining - HEADER {
      return TornTail;
    }
    FieldsInPlace(buf, offset, len);
    var payload := buf[offset + HEADER..offset + HEADER + len];
    if c.crc(ToLe(len, 4) + payload) != crcStored {
      return TornTail;
    }
    match c.de(payload) {
      case None => return Undecodable;
      case Some(rec) => return Intact(rec, len);
    }
  }

  method ScanWalBytes(c: Codec, buf: seq<byte>) returns (r: Result<ScanResult, nat>)
    ensures r == Scan(c, buf)
  {
    var offset := 0;
    var records: seq<WalRecord> := [];
    ScanStarts(c, buf);
    while true
      invariant ScannedTo(c, buf, offset, records)
      decreases |buf| - offset
    {
      ScanStops(c, buf, offset, records);
      var frame := FrameAt(c, buf, offset);
      match frame {
        case CleanEnd => return Ok(ScanResult(records, offset, false, 0));
        case TornTail => return Ok(ScanResult(records, offset, true, 1));
        case Undecodable => return Err(offset);
        case Intact(rec, len) =>
          ScanAdvances(c, buf, offset, records, rec, len);
          offset := offset + HEADER + len;
          records := records + [rec];
      }
    }
  }

  // ---------------------------------------------------------------------
  // Any byte prefix of whole frames
  // ---------------------------------------------------------------------

  ghost predicate AreFrames(c: Codec, fs: seq<seq<byte>>, recs: seq<WalRecord>) {
    |fs| == |recs| && forall i :: 0 <= i < |fs| ==> IsFrame(c, fs[i], recs[i])
  }

  function Concat(fs: seq<seq<byte>>): seq<byte> {
    if fs == [] then [] else fs[0] + Concat(fs[1..])
  }

  /** The offset just past the first k frames. */
  function End(fs: seq<seq<byte>>, k: nat): nat
    requires k <= |fs|
  {
    if k == 0 then 0 else |fs[0]| + End(fs[1..], k - 1)
  }

  lemma {:induction false} EndIsLength(fs: seq<seq<byte>>)
    ensures End(fs, |fs|) == |Concat(fs)|
  {
    if fs != [] {
      EndIsLength(fs[1..]);
    }
  }

  lemma {:induction false} EndGrows(fs: seq<seq<byte>>, k: nat)
    requires k < |fs|
    ensures End(fs, k + 1) == End(fs, k) + |fs[k]|
  {
    if k > 0 {
      EndGrows(fs[1..], k - 1);
    }
  }

  lemma {:induction false} EndMonotone(fs: seq<seq<byte>>, j: nat, k: nat)
    requires j <= k <= |fs|
    ensures End(fs, j) <= End(fs, k)
    decreases k
  {
    if j < k {
      EndMonotone(fs, j, k - 1);
      EndGrows(fs, k - 1);
    }
  }

  /** A whole frame at the head of the buffer reads back as its record. */
  lemma ReadWholeFrame(c: Codec, f: seq<byte>, r: WalRecord, tail: seq<byte>)
    requires CrcFits(c) && IsFrame(c, f, r)
    ensures ReadFrame(c, f + tail) == Intact(r, |f| - HEADER)
  {
    var payload := f[HEADER..];
    var buf := f + tail;
    var len := ToLe(|payload|, 4);
    U32IsFourBytes();
    LeRoundTrip(|payload|, 4);
    LeRoundTrip(c.crc(len + payload), 4);
    assert buf[..4] == len;
    assert buf[4..8] == ToLe(c.crc(len + payload), 4);
    assert buf[HEADER..HEADER + |payload|] == payload;
  }

  /** A frame cut short is always seen as a torn tail: by its length, never by luck of the checksum. */
  lemma ReadCutFrame(c: Codec, f: seq<byte>, r: WalRecord, cut: nat)
    requires CrcFits(c) && IsFrame(c, f, r)
    requires 0 < cut < |f|
    ensures ReadFrame(c, f[..cut]) == TornTail
  {
    var payload := f[HEADER..];
    if cut >= HEADER {
      U32IsFourBytes();
      LeRoundTrip(|payload|, 4);
      assert f[..cut][..4] == ToLe(|payload|, 4);
    }
  }

  /** `k` frames lie wholly within the first `cut` bytes, and no more. */
  predicate WholeFrames(fs: seq<seq<byte>>, cut: nat, k: nat) {
    k <= |fs| && End(fs, k) <= cut && (k < |fs| ==> cut < End(fs, k + 1))
  }

  lemma ScanWholeFrame(c: Codec, f: seq<byte>, r: WalRecord, tail: seq<byte>)
    requires CrcFits(c) && IsFrame(c, f, r)
    ensures Scan(c, f + tail) == After(r, |f|, Scan(c, tail))
  {
    ReadWholeFrame(c, f, r, tail);
    assert (f + tail)[|f|..] == tail;
  }

  /** Bytes that are no whole frame: too few, of a length that does not fit, or at odds with their checksum. */
  ghost predicate Damaged(c: Codec, tail: seq<byte>) {
    && tail != []
    && (|tail| >= 8 ==>
          var len := FromLe(tail[..4]);
          len > |tail| - 8 || c.crc(ToLe(len, 4) + tail[8..8 + len]) != FromLe(tail[4..8]))
  }

  /** A whole frame, by its checksum, of something that is no record. */
  ghost predicate Foreign(c: Codec, tail: seq<byte>) {
    && |tail| >= 8
    && var len := FromLe(tail[..4]);
       && len <= |tail| - 8
       && c.crc(ToLe(len, 4) + tail[8..8 + len]) == FromLe(tail[4..8])
       && c.de(tail[8..8 + len]).None?
  }

  /** The scan of `buf`, as a fact to carry around unopened. */
  ghost predicate ScansAs(c: Codec, buf: seq<byte>, r: Result<ScanResult, nat>) {
    forall i {:trigger Sealed(i)} :: Sealed(i) ==> Scan(c, buf) == r
  }

  /** Whatever follows whole frames, the scan finds them first. */
  lemma {:induction false} ScanOfFrames(c: Codec, fs: seq<seq<byte>>, recs: seq<WalRecord>, tail: seq<byte>, after: Result<ScanResult, nat>)
    requires CrcFits(c) && AreFrames(c, fs, recs) && ScansAs(c, tail, after)
    ensures ScansAs(c, Concat(fs) + tail, Prepend(recs, End(fs, |fs|), after))
    decreases |fs|
  {
    if fs == [] {
      assert Concat(fs) + tail == tail && recs == [];
      PrependNothing([], 0, after);
    } else {
      assert IsFrame(c, fs[0], recs[0]);
      ScanOfFrames(c, fs[1..], recs[1..], tail, after);
      FrameThenRest(c, fs, recs, tail, after);
    }
  }

  lemma FrameThenRest(c: Codec, fs: seq<seq<byte>>, recs: seq<WalRecord>, tail: seq<byte>, after: Result<ScanResult, nat>)
    requires CrcFits(c) && fs != [] && |recs| == |fs| && IsFrame(c, fs[0], recs[0])
    requires ScansAs(c, Concat(fs[1..]) + tail, Prepend(recs[1..], End(fs[1..], |fs| - 1), after))
    ensures ScansAs(c, Concat(fs) + tail, Prepend(recs, End(fs, |fs|), after))
  {
    var rest, end := Concat(fs[1..]) + tail, End(fs[1..], |fs| - 1);
    assert Concat(fs) + tail == fs[0] + rest;
    assert [recs[0]] + recs[1..] == recs;
    assert End(fs, |fs|) == |fs[0]| + end;
    ScanPastFrame(c, fs[0], recs[0], rest, recs[1..], end, Concat(fs) + tail, Prepend(recs, End(fs, |fs|), after), after);
  }

  lemma ScanPastFrame(c: Codec, f: seq<byte>, r: WalRecord, rest: seq<byte>, recs: seq<WalRecord>, end: nat,
      whole: seq<byte>, found: Result<ScanResult, nat>, after: Result<ScanResult, nat>)
    requires CrcFits(c) && IsFrame(c, f, r) && ScansAs(c, rest, Prepend(recs, end, after))
    requires whole == f + rest && found == Prepend([r] + recs, |f| + end, after)
    ensures ScansAs(c, whole, found)
  {
    assert Sealed(0);
    ScanWholeFrame(c, f, r, rest);
    AfterPrepend(r, recs, |f|, end, after);
  }

  lemma AfterPrepend(r: WalRecord, recs: seq<WalRecord>, n: nat, m: nat, rest: Result<ScanResult, nat>)
    ensures After(r, n, Prepend(recs, m, rest)) == Prepend([r] + recs, n + m, rest)
  {
    if rest.Ok? {
      assert [r] + (recs + rest.value.records) == [r] + recs + rest.value.records;
    }
  }

  lemma DamageAtHead(c: Codec, tail: seq<byte>)
    ensures Damaged(c, tail) ==> ScansAs(c, tail, Ok(ScanResult([], 0, true, 1)))
    ensures Foreign(c, tail) ==> ScansAs(c, tail, Err(0))
  {
  }

  /** After whole frames, damage ends the scan there, and a frame that does not decode is an error there. */
  lemma ScanOfDamage(c: Codec, fs: seq<seq<byte>>, recs: seq<WalRecord>, tail: seq<byte>)
    requires CrcFits(c) && AreFrames(c, fs, recs)
    ensures Damaged(c, tail) ==> Scan(c, Concat(fs) + tail) == Ok(ScanResult(recs, End(fs, |fs|), true, 1))
    ensures Foreign(c, tail) ==> Scan(c, Concat(fs) + tail) == Err(End(fs, |fs|))
  {
    DamageAtHead(c, tail);
    var end := End(fs, |fs|);
    if Damaged(c, tail) {
      ScanOfFrames(c, fs, recs, tail, Ok(ScanResult([], 0, true, 1)));
      PrependNothing(recs, end, Ok(ScanResult([], 0, true, 1)));
    } else if Foreign(c, tail) {
      ScanOfFrames(c, fs, recs, tail, Err(0));
    }
    assert Sealed(0);
  }

  lemma ScanCutFrame(c: Codec, f: seq<byte>, r: WalRecord, cut: nat)
    requires CrcFits(c) && IsFrame(c, f, r)
    requires cut < |f|
    ensures Scan(c, f[..cut]) == Ok(ScanResult([], 0, cut != 0, if cut != 0 then 1 else 0))
  {
    if cut > 0 {
      ReadCutFrame(c, f, r, cut);
    }
  }

  /** The first frame, then the rest: how a cut splits. */
  lemma CutAfterFirst(fs: seq<seq<byte>>, cut: nat, k: nat)
    requires fs != [] && |fs[0]| <= cut <= |Concat(fs)| && WholeFrames(fs, cut, k)
    ensures k > 0
    ensures Concat(fs)[..cut] == fs[0] + Concat(fs[1..])[..cut - |fs[0]|]
    ensures WholeFrames(fs[1..], cut - |fs[0]|, k - 1)
  {
    assert End(fs, 1) == |fs[0]| + End(fs[1..], 0);
    if k < |fs| { assert End(fs, k + 1) == |fs[0]| + End(fs[1..], k); }
  }

  lemma CutInFirst(fs: seq<seq<byte>>, cut: nat, k: nat)
    requires fs != [] && cut < |fs[0]| && WholeFrames(fs, cut, k)
    ensures k == 0
    ensures cut <= |Concat(fs)| && Concat(fs)[..cut] == fs[0][..cut]
  {
    EndMonotone(fs, Min(1, k), k);
  }

  /** What the scan of a cut yields. */
  ghost predicate ScansTo(c: Codec, buf: seq<byte>, recs: seq<WalRecord>, end: nat) {
    Scan(c, buf) == Ok(ScanResult(recs, end, |buf| != end, if |buf| != end then 1 else 0))
  }

  lemma ScansToWithFrame(c: Codec, f: seq<byte>, r: WalRecord, tail: seq<byte>, recs: seq<WalRecord>, end: nat)
    requires CrcFits(c) && IsFrame(c, f, r)
    requires ScansTo(c, tail, recs, end)
    ensures ScansTo(c, f + tail, [r] + recs, |f| + end)
  {
    ScanWholeFrame(c, f, r, tail);
  }

  /** ScansTo, as a fact to carry around unopened. */
  ghost predicate Scanned(c: Codec, buf: seq<byte>, recs: seq<WalRecord>, end: nat) {
    forall i {:trigger Sealed(i)} :: Sealed(i) ==> ScansTo(c, buf, recs, end)
  }

  lemma NothingScanned(c: Codec)
    ensures Scanned(c, [], [], 0)
  {
  }

  lemma CutInFirstFrame(c: Codec, fs: seq<seq<byte>>, recs: seq<WalRecord>, cut: nat, k: nat)
    requires CrcFits(c) && AreFrames(c, fs, recs)
    requires fs != [] && cut < |fs[0]| && WholeFrames(fs, cut, k)
    ensures cut <= |Concat(fs)| && Scanned(c, Concat(fs)[..cut], recs[..k], End(fs, k))
  {
    assert IsFrame(c, fs[0], recs[0]);
    CutInFirst(fs, cut, k);
    ScanCutFrame(c, fs[0], recs[0], cut);
  }

  /** One whole frame in front of a cut that is already understood. */
  lemma FrameBeforeCut(c: Codec, f: seq<byte>, tail: seq<byte>, recs: seq<WalRecord>, k: nat, end: nat)
    requires CrcFits(c) && 0 < k <= |recs| && IsFrame(c, f, recs[0])
    requires Scanned(c, tail, recs[1..][..k - 1], end)
    ensures Scanned(c, f + tail, recs[..k], |f| + end)
  {
    assert Sealed(0);
    ScansToWithFrame(c, f, recs[0], tail, recs[1..][..k - 1], end);
    assert [recs[0]] + recs[1..][..k - 1] == recs[..k];
  }

  lemma CutScannedStep(c: Codec, fs: seq<seq<byte>>, recs: seq<WalRecord>, cut: nat, k: nat)
    requires CrcFits(c) && fs != [] && |recs| == |fs| && IsFrame(c, fs[0], recs[0])
    requires |fs[0]| <= cut <= |Concat(fs)| && 0 < k <= |fs|
    requires Scanned(c, Concat(fs[1..])[..cut - |fs[0]|], recs[1..][..k - 1], End(fs[1..], k - 1))
    ensures Scanned(c, Concat(fs)[..cut], recs[..k], End(fs, k))
  {
    var tail, end := Concat(fs[1..])[..cut - |fs[0]|], End(fs[1..], k - 1);
    assert Concat(fs)[..cut] == fs[0] + tail;
    assert End(fs, k) == |fs[0]| + end;
    FrameBeforeCut(c, fs[0], tail, recs, k, end);
  }

  lemma {:induction false} CutScanned(c: Codec, fs: seq<seq<byte>>, recs: seq<WalRecord>, cut: nat, k: nat)
    requires CrcFits(c) && AreFrames(c, fs, recs)
    requires cut <= |Concat(fs)| && WholeFrames(fs, cut, k)
    ensures Scanned(c, Concat(fs)[..cut], recs[..k], End(fs, k))
    decreases |fs|
  {
    if fs == [] {
      NothingScanned(c);
      assert Concat(fs)[..cut] == [] && recs[..k] == [];
    } else {
      assert IsFrame(c, fs[0], recs[0]);
      if cut < |fs[0]| {
        CutInFirstFrame(c, fs, recs, cut, k);
      } else {
        CutAfterFirst(fs, cut, k);
        CutScanned(c, fs[1..], recs[1..], cut - |fs[0]|, k - 1);
        CutScannedStep(c, fs, recs, cut, k);
      }
    }
  }

  /**
   Cutting concatenated frames at any byte yields exactly the records of the
   frames wholly contained, with valid_end at their boundary.
   */
  lemma ScanOfCut(c: Codec, fs: seq<seq<byte>>, recs: seq<WalRecord>, cut: nat, k: nat)
    requires CrcFits(c) && AreFrames(c, fs, recs)
    requires cut <= |Concat(fs)| && WholeFrames(fs, cut, k)
    ensures ScansTo(c, Concat(fs)[..cut], recs[..k], End(fs, k))
  {
    CutScanned(c, fs, recs, cut, k);
    assert Sealed(0);
  }

  /** Every cut contains some number of whole frames. */
  lemma {:induction false} WholeFramesExist(fs: seq<seq<byte>>, cut: nat) returns (k: nat)
    requires cut <= |Concat(fs)|
    ensures WholeFrames(fs, cut, k)
    decreases |fs|
  {
    if fs == [] || cut < |fs[0]| {
      k := 0;
      if fs != [] { assert End(fs, 1) == |fs[0]| + End(fs[1..], 0); }
    } else {
      var j := WholeFramesExist(fs[1..], cut - |fs[0]|);
      k := j + 1;
      if k < |fs| { assert End(fs, k + 1) == |fs[0]| + End(fs[1..], j + 1); }
    }
  }

  // ---------------------------------------------------------------------
  // committed_end
  // ---------------------------------------------------------------------

  /** The sum recovery forms by encoding the committed records again. */
  function CommittedEnd(c: Codec, recs: seq<WalRecord>): nat {
    if recs == [] then 0 else FrameLen(c, recs[0]) + CommittedEnd(c, recs[1..])
  }

  lemma {:induction false} CommittedEndIsOffset(c: Codec, fs: seq<seq<byte>>, recs: seq<WalRecord>, k: nat)
    requires AreFrames(c, fs, recs) && k <= |fs|
    ensures CommittedEnd(c, recs[..k]) == End(fs, k)
    decreases k
  {
    if k > 0 {
      assert IsFrame(c, fs[0], recs[0]);
      assert AreFrames(c, fs[1..], recs[1..]);
      assert recs[..k][1..] == recs[1..][..k - 1];
      CommittedEndIsOffset(c, fs[1..], recs[1..], k - 1);
    }
  }

  lemma {:induction false} ConcatPrefix(fs: seq<seq<byte>>, k: nat)
    requires k <= |fs|
    ensures End(fs, k) <= |Concat(fs)|
    ensures Concat(fs)[..End(fs, k)] == Concat(fs[..k])
    decreases k
  {
    if k > 0 {
      ConcatPrefix(fs[1..], k - 1);
      assert fs[..k][1..] == fs[1..][..k - 1];
      assert Concat(fs)[..End(fs, k)] == fs[0] + Concat(fs[1..])[..End(fs[1..], k - 1)];
    }
  }

  /**
   Cutting a crashed log at the recomputed length leaves exactly the bytes of
   the committed frames, and those scan cleanly.
   */
  lemma TruncateAtCommittedEnd(c: Codec, fs: seq<seq<byte>>, recs: seq<WalRecord>, cut: nat, kept: nat)
    requires CrcFits(c) && AreFrames(c, fs, recs)
    requires cut <= |Concat(fs)| && kept <= |fs| && End(fs, kept) <= cut
    ensures var disk := Concat(fs)[..cut];
      var n := CommittedEnd(c, recs[..kept]);
      && n <= |disk|
      && disk[..n] == Concat(fs[..kept])
      && Scan(c, disk[..n]) == Ok(ScanResult(recs[..kept], n, false, 0))
  {
    CommittedEndIsOffset(c, fs, recs, kept);
    ConcatPrefix(fs, kept);
    assert Concat(fs)[..cut][..End(fs, kept)] == Concat(fs)[..End(fs, kept)];
    if kept < |fs| {
      EndGrows(fs, kept);
      assert IsFrame(c, fs[kept], recs[kept]);
    }
    ScanOfCut(c, fs, recs, End(fs, kept), kept);
  }

  // ---------------------------------------------------------------------
  // Bytes and frames tell the same story
  // ---------------------------------------------------------------------

  /** A log whose first `synced` frames are durable and whose later ones were appended one by one. */
  function Appended(recs: seq<WalRecord>, synced: nat): Volatile<Log>
    requires synced <= |recs|
  {
    Volatile(Log(recs[..synced], false),
      seq(|recs| - synced, i requires 0 <= i < |recs| - synced => Log(recs[..synced + i + 1], false)))
  }

  /**
   The byte images of a power cut, scanned, are exactly the frame images of the
   protocol: every cut of the unsynced bytes is one, and each one arises from a cut.
   */
  lemma CutsAreLogImages(c: Codec, fs: seq<seq<byte>>, recs: seq<WalRecord>, synced: nat, cut: nat)
    requires CrcFits(c) && AreFrames(c, fs, recs) && synced <= |recs|
    requires End(fs, synced) <= cut <= |Concat(fs)|
    ensures var r := Scan(c, Concat(fs)[..cut]);
      r.Ok? && LogImage(Appended(recs, synced), Log(r.value.records, r.value.tailTruncated))
  {
    var k := WholeFramesExist(fs, cut);
    ScanOfCut(c, fs, recs, cut, k);
    if k < synced {
      EndMonotone(fs, k + 1, synced);
    }
    var w := Appended(recs, synced);
    assert w.At(k - synced) == Log(recs[..k], false);
    if cut != End(fs, k) {
      assert k < |fs| by {
        if k == |fs| { EndIsLength(fs); }
      }
      assert w.At(k - synced + 1) == Log(recs[..k + 1], false);
    }
  }

  /** One more byte than k whole frames is a torn frame, if there is another frame. */
  lemma CutAt(fs: seq<seq<byte>>, k: nat, extra: nat)
    requires k <= |fs| && extra <= 1
    requires forall i :: 0 <= i < |fs| ==> |fs[i]| >= HEADER
    requires extra == 1 ==> k < |fs|
    ensures End(fs, k) + extra <= |Concat(fs)|
    ensures WholeFrames(fs, End(fs, k) + extra, k)
  {
    EndIsLength(fs);
    if k < |fs| {
      EndGrows(fs, k);
      EndMonotone(fs, k + 1, |fs|);
    }
  }

  lemma AppendedImage(recs: seq<WalRecord>, synced: nat, l: Log) returns (k: nat)
    requires synced <= |recs| && LogImage(Appended(recs, synced), l)
    ensures synced <= k <= |recs| && l.recs == recs[..k]
    ensures l.torn ==> k < |recs|
  {
    var w := Appended(recs, synced);
    var j: nat :| j <= |w.pending| &&
      (l == w.At(j) || (j < |w.pending| && TornLog(w.At(j), w.At(j + 1), l)));
    k := synced + j;
    var whole := w.At(j);
    assert whole == Log(recs[..k], false);
    if l != whole {
      assert TornLog(w.At(j), w.At(j + 1), l);
      assert l == Log(w.At(j).recs, true);
    }
    assert l.recs == whole.recs;
  }

  lemma LogImagesAreCuts(c: Codec, fs: seq<seq<byte>>, recs: seq<WalRecord>, synced: nat, l: Log) returns (cut: nat)
    requires CrcFits(c) && AreFrames(c, fs, recs) && synced <= |recs|
    requires LogImage(Appended(recs, synced), l)
    ensures End(fs, synced) <= cut <= |Concat(fs)|
    ensures Scan(c, Concat(fs)[..cut]).Ok?
    ensures var r := Scan(c, Concat(fs)[..cut]).value; l == Log(r.records, r.tailTruncated)
  {
    var k := AppendedImage(recs, synced, l);
    forall i | 0 <= i < |fs| ensures |fs[i]| >= HEADER { assert IsFrame(c, fs[i], recs[i]); }
    var extra := if l.torn then 1 else 0;
    CutAt(fs, k, extra);
    EndMonotone(fs, synced, k);
    cut := End(fs, k) + extra;
    ScanOfCut(c, fs, recs, cut, k);
  }
}
