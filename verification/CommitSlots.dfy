/** The on-disk form of the COMMIT sidecar: two checksummed slots at fixed offsets (src/persist/commit.rs). */
module CommitSlots {
  import opened Types
  import opened Bytes
  import opened Disk

  const MAGIC: seq<byte> := [79, 71, 67, 77] // "OGCM"
  const COMMIT_VERSION := 1
  const CONTENT_LEN := 40
  const SLOT_SIZE := 44
  const FILE_SIZE := 88

  /** The field widths: gen and committed_seq are u64, epoch is u128. */
  ghost predicate InRange(r: CommitRecord) {
    r.gen < Pow256(8) && r.committedSeq < Pow256(8) && r.epoch < Pow256(16)
  }

  function Content(r: CommitRecord): (s: seq<byte>)
    ensures |s| == CONTENT_LEN
  {
    MAGIC + ToLe(COMMIT_VERSION, 4) + ToLe(r.gen, 8) + ToLe(r.epoch, 16) + ToLe(r.committedSeq, 8)
  }

  function SlotBytes(crc: seq<byte> -> nat, r: CommitRecord): (s: seq<byte>)
    ensures |s| == SLOT_SIZE
  {
    Content(r) + ToLe(crc(Content(r)), 4)
  }

  method CopyInto(buf: array<byte>, at: nat, src: seq<byte>)
    requires at + |src| <= buf.Length
    modifies buf
    ensures buf[..] == old(buf[..at]) + src + old(buf[at + |src|..])
  {
    for i := 0 to |src|
      invariant buf[..] == old(buf[..at]) + src[..i] + old(buf[at + i..])
    {
      buf[at + i] := src[i];
    }
    assert src[..|src|] == src;
  }

  /** encode_slot: fills the 44-byte buffer field by field. */
  method EncodeSlot(crc: seq<byte> -> nat, r: CommitRecord) returns (buf: array<byte>)
    ensures fresh(buf) && buf[..] == SlotBytes(crc, r)
  {
    buf := new byte[SLOT_SIZE](_ => 0);
    CopyInto(buf, 0, MAGIC);
    CopyInto(buf, 4, ToLe(COMMIT_VERSION, 4));
    assert buf[..8] == MAGIC + ToLe(COMMIT_VERSION, 4);
    CopyInto(buf, 8, ToLe(r.gen, 8));
    assert buf[..16] == MAGIC + ToLe(COMMIT_VERSION, 4) + ToLe(r.gen, 8);
    CopyInto(buf, 16, ToLe(r.epoch, 16));
    assert buf[..32] == MAGIC + ToLe(COMMIT_VERSION, 4) + ToLe(r.gen, 8) + ToLe(r.epoch, 16);
    CopyInto(buf, 32, ToLe(r.committedSeq, 8));
    assert buf[..CONTENT_LEN] == Content(r);
    CopyInto(buf, 40, ToLe(crc(buf[..CONTENT_LEN]), 4));
    assert buf[..] == buf[..CONTENT_LEN] + buf[CONTENT_LEN..];
  }

  /** decode_slot: any defect makes the slot invalid, never an error. */
  function DecodeSlot(crc: seq<byte> -> nat, s: seq<byte>): Option<CommitRecord> {
    if |s| < SLOT_SIZE then None
    else if s[..4] != MAGIC then None
    else if FromLe(s[4..8]) != COMMIT_VERSION then None
    else if crc(s[..CONTENT_LEN]) != FromLe(s[40..44]) then None
    else Some(CommitRecord(FromLe(s[16..32]), FromLe(s[32..40]), FromLe(s[8..16])))
  }

  /** Where each field of a slot sits. */
  lemma SlotFields(content: seq<byte>, version: seq<byte>, gen: seq<byte>, epoch: seq<byte>, seqNo: seq<byte>, sum: seq<byte>)
    requires |version| == 4 && |gen| == 8 && |epoch| == 16 && |seqNo| == 8 && |sum| == 4
    requires content == MAGIC + version + gen + epoch + seqNo
    ensures |content| == CONTENT_LEN
    ensures var s := content + sum;
      && s[..4] == MAGIC && s[4..8] == version && s[8..16] == gen && s[16..32] == epoch && s[32..40] == seqNo
      && s[..CONTENT_LEN] == content && s[40..44] == sum
  {
  }

  /** n stands in s from position `at` on, least significant byte first. */
  ghost predicate Holds(s: seq<byte>, at: nat, width: nat, n: nat) {
    at + width <= |s| && forall i :: 0 <= i < width ==> s[at + i] == (n / Pow256(i)) % 256
  }

  lemma HoldsPart(s: seq<byte>, at: nat, width: nat, n: nat)
    requires at + width <= |s| && s[at..at + width] == ToLe(n, width)
    ensures Holds(s, at, width, n)
  {
    forall i | 0 <= i < width ensures s[at + i] == (n / Pow256(i)) % 256 {
      LittleEndian(n, width, i);
      assert s[at..at + width][i] == s[at + i];
    }
  }

  /** The 44 bytes of a slot: magic, version 1, generation, epoch, committed seq, and the checksum of all that. */
  lemma SlotLayout(crc: seq<byte> -> nat, r: CommitRecord)
    ensures var s := SlotBytes(crc, r);
      && |s| == 44 && s[..4] == [79, 71, 67, 77]
      && Holds(s, 4, 4, 1) && Holds(s, 8, 8, r.gen) && Holds(s, 16, 16, r.epoch) && Holds(s, 32, 8, r.committedSeq)
      && Holds(s, 40, 4, crc(s[..40]))
  {
    var s := SlotBytes(crc, r);
    SlotFields(Content(r), ToLe(COMMIT_VERSION, 4), ToLe(r.gen, 8), ToLe(r.epoch, 16), ToLe(r.committedSeq, 8), ToLe(crc(Content(r)), 4));
    HoldsPart(s, 4, 4, COMMIT_VERSION);
    HoldsPart(s, 8, 8, r.gen);
    HoldsPart(s, 16, 16, r.epoch);
    HoldsPart(s, 32, 8, r.committedSeq);
    HoldsPart(s, 40, 4, crc(Content(r)));
  }

  lemma SlotRoundTrip(crc: seq<byte> -> nat, r: CommitRecord)
    requires InRange(r) && crc(Content(r)) < U32
    ensures DecodeSlot(crc, SlotBytes(crc, r)) == Some(r)
  {
    var version, gen, epoch, seqNo, sum :=
      ToLe(COMMIT_VERSION, 4), ToLe(r.gen, 8), ToLe(r.epoch, 16), ToLe(r.committedSeq, 8), ToLe(crc(Content(r)), 4);
    SlotFields(Content(r), version, gen, epoch, seqNo, sum);
    U32IsFourBytes();
    LeRoundTrip(COMMIT_VERSION, 4);
    LeRoundTrip(r.gen, 8);
    LeRoundTrip(r.epoch, 16);
    LeRoundTrip(r.committedSeq, 8);
    LeRoundTrip(crc(Content(r)), 4);
  }

  // ---------------------------------------------------------------------
  // The file
  // ---------------------------------------------------------------------

  /** `buf.get(lo..hi)` */
  function Slice(buf: seq<byte>, lo: nat, hi: nat): Option<seq<byte>>
    requires lo <= hi
  {
    if hi <= |buf| then Some(buf[lo..hi]) else None
  }

  function DecodeAt(crc: seq<byte> -> nat, buf: seq<byte>, lo: nat): Option<CommitRecord> {
    match Slice(buf, lo, lo + SLOT_SIZE)
    case None => None
    case Some(s) => DecodeSlot(crc, s)
  }

  /** What CommitFile::open sees in the file. */
  function SlotsOf(crc: seq<byte> -> nat, buf: seq<byte>): Slots {
    Slots(DecodeAt(crc, buf, 0), DecodeAt(crc, buf, SLOT_SIZE))
  }

  /** A positioned write; a hole is filled with zeros. */
  function WriteAt(buf: seq<byte>, off: nat, bytes: seq<byte>): seq<byte> {
    var wide := if |buf| < off + |bytes| then buf + seq(off + |bytes| - |buf|, _ => 0) else buf;
    wide[..off] + bytes + wide[off + |bytes|..]
  }

  /** After create the file is one slot long; a torn first write of the second slot leaves it in between, a whole one two slots long. */
  predicate FileShape(buf: seq<byte>) { SLOT_SIZE <= |buf| <= FILE_SIZE }

  /** Offset of slot i. */
  function SlotOffset(i: nat): nat { if i == 0 then 0 else SLOT_SIZE }

  /**
   The one assumption about the checksum: it rejects a slot that is a proper
   mixture of the bytes of two writes.
   */
  predicate RejectsTorn(crc: seq<byte> -> nat, slot: seq<byte>, before: seq<byte>, after: seq<byte>) {
    |slot| < SLOT_SIZE || slot == before || slot == after || crc(slot[..CONTENT_LEN]) != FromLe(slot[40..44])
  }

  function SlotRegion(buf: seq<byte>, i: nat): seq<byte> {
    var lo := SlotOffset(i);
    if lo <= |buf| then buf[lo..if lo + SLOT_SIZE <= |buf| then lo + SLOT_SIZE else |buf|] else []
  }

  /** The other slot is never touched, however much of the write reached the disk. */
  lemma OtherSlotUntouched(crc: seq<byte> -> nat, buf: seq<byte>, i: nat, bytes: seq<byte>, keep: nat)
    requires FileShape(buf) && i <= 1 && |bytes| == SLOT_SIZE && keep <= SLOT_SIZE
    requires |buf| < FILE_SIZE ==> i == 1
    ensures FileShape(WriteAt(buf, SlotOffset(i), bytes[..keep]))
    ensures SlotsOf(crc, WriteAt(buf, SlotOffset(i), bytes[..keep])).Get(1 - i) == SlotsOf(crc, buf).Get(1 - i)
  {
    var after := WriteAt(buf, SlotOffset(i), bytes[..keep]);
    var lo := SlotOffset(1 - i);
    if lo + SLOT_SIZE <= |buf| {
      assert after[lo..lo + SLOT_SIZE] == buf[lo..lo + SLOT_SIZE];
    }
  }

  /**
   However many bytes of a slot write reach the disk, the file decodes to the
   slots before the write, to the slots after it, or to the written slot invalid.
   */
  lemma TornWriteImages(crc: seq<byte> -> nat, buf: seq<byte>, i: nat, r: CommitRecord, keep: nat)
    requires FileShape(buf) && i <= 1 && keep <= SLOT_SIZE
    requires |buf| < FILE_SIZE ==> i == 1
    requires InRange(r) && crc(Content(r)) < U32
    requires var torn := SlotRegion(WriteAt(buf, SlotOffset(i), SlotBytes(crc, r)[..keep]), i);
      RejectsTorn(crc, torn, SlotRegion(buf, i), SlotBytes(crc, r))
    ensures var a := SlotsOf(crc, buf);
      var b := a.Set(i, Some(r));
      var x := SlotsOf(crc, WriteAt(buf, SlotOffset(i), SlotBytes(crc, r)[..keep]));
      && (x == a || x == b || TornSlots(a, b, x))
      && (keep == SLOT_SIZE ==> x == b)
  {
    var bytes := SlotBytes(crc, r);
    var after := WriteAt(buf, SlotOffset(i), bytes[..keep]);
    var lo := SlotOffset(i);
    OtherSlotUntouched(crc, buf, i, bytes, keep);
    SlotRoundTrip(crc, r);
    var torn := SlotRegion(after, i);
    if |torn| == SLOT_SIZE {
      assert torn == after[lo..lo + SLOT_SIZE];
      assert DecodeAt(crc, after, lo) == DecodeSlot(crc, torn);
      if torn == SlotRegion(buf, i) {
        assert lo + SLOT_SIZE <= |buf|;
        assert DecodeAt(crc, buf, lo) == DecodeSlot(crc, torn);
      }
    }
    if keep == SLOT_SIZE {
      assert torn == bytes;
    }
  }

  // ---------------------------------------------------------------------
  // Any number of writes, power cuts and reopenings
  // ---------------------------------------------------------------------

  /** A marker write of which the first `keep` bytes reach the disk: all of them, or fewer under a power cut. */
  datatype Attempt = Attempt(epoch: nat, seqNo: nat, keep: nat)

  /** The file opens: some slot is valid. */
  predicate Opens(crc: seq<byte> -> nat, buf: seq<byte>) {
    FileShape(buf) && (SlotsOf(crc, buf).s0.Some? || SlotsOf(crc, buf).s1.Some?)
  }

  function Marker(crc: seq<byte> -> nat, buf: seq<byte>): CommitRecord
    requires Opens(crc, buf)
  {
    SlotsOf(crc, buf).Chosen()
  }

  /** The writer overwrites the slot it does not trust, with the next generation. */
  function NextSlot(crc: seq<byte> -> nat, buf: seq<byte>): nat
    requires Opens(crc, buf)
  {
    1 - SlotsOf(crc, buf).ChosenSlot()
  }

  function NextRecord(crc: seq<byte> -> nat, buf: seq<byte>, a: Attempt): CommitRecord
    requires Opens(crc, buf)
  {
    CommitRecord(a.epoch, a.seqNo, Marker(crc, buf).gen + 1)
  }

  function AfterOne(crc: seq<byte> -> nat, buf: seq<byte>, a: Attempt): seq<byte>
    requires Opens(crc, buf) && a.keep <= SLOT_SIZE
  {
    WriteAt(buf, SlotOffset(NextSlot(crc, buf)), SlotBytes(crc, NextRecord(crc, buf, a))[..a.keep])
  }

  /** The fields fit, and the checksum tells a torn slot. */
  ghost predicate Sound(crc: seq<byte> -> nat, buf: seq<byte>, a: Attempt) {
    && Opens(crc, buf) && a.keep <= SLOT_SIZE
    && var i, r := NextSlot(crc, buf), NextRecord(crc, buf, a);
    && InRange(r) && crc(Content(r)) < U32
    && RejectsTorn(crc, SlotRegion(AfterOne(crc, buf, a), i), SlotRegion(buf, i), SlotBytes(crc, r))
  }

  /** A file shorter than two slots is trusted for its first slot, so the next write extends it. */
  lemma ShortFileTrustsFirst(crc: seq<byte> -> nat, buf: seq<byte>)
    requires Opens(crc, buf) && |buf| < FILE_SIZE
    ensures NextSlot(crc, buf) == 1
  {
  }

  /** One write, torn anywhere: the file still opens, with the marker it had or the new one, and a whole write counts. */
  lemma OneWriteKeepsMarker(crc: seq<byte> -> nat, buf: seq<byte>, a: Attempt)
    requires Sound(crc, buf, a)
    ensures var after := AfterOne(crc, buf, a);
      && Opens(crc, after)
      && (Marker(crc, after) == Marker(crc, buf) || Marker(crc, after) == NextRecord(crc, buf, a))
      && (a.keep == SLOT_SIZE ==> Marker(crc, after) == NextRecord(crc, buf, a))
  {
    var i, r := NextSlot(crc, buf), NextRecord(crc, buf, a);
    if |buf| < FILE_SIZE {
      ShortFileTrustsFirst(crc, buf);
    }
    OtherSlotUntouched(crc, buf, i, SlotBytes(crc, r), a.keep);
    TornWriteImages(crc, buf, i, r, a.keep);
  }

  /** Each write follows a reopening of what the one before it left. */
  ghost predicate AllSound(crc: seq<byte> -> nat, buf: seq<byte>, attempts: seq<Attempt>)
    decreases |attempts|
  {
    attempts == [] || (Sound(crc, buf, attempts[0]) && AllSound(crc, AfterOne(crc, buf, attempts[0]), attempts[1..]))
  }

  ghost function AfterAll(crc: seq<byte> -> nat, buf: seq<byte>, attempts: seq<Attempt>): seq<byte>
    requires AllSound(crc, buf, attempts)
    decreases |attempts|
  {
    if attempts == [] then buf else AfterAll(crc, AfterOne(crc, buf, attempts[0]), attempts[1..])
  }

  /** The seqs written never decrease. */
  predicate Climbing(from: nat, attempts: seq<Attempt>)
    decreases |attempts|
  {
    attempts == [] || (from <= attempts[0].seqNo && Climbing(attempts[0].seqNo, attempts[1..]))
  }

  /**
   Over any number of marker writes, each torn anywhere or whole, with a reopening
   after each: the file always opens, and its marker is at least every seq wholly
   written and at most the last one attempted.
   */
  lemma {:induction false} PingPongSurvives(crc: seq<byte> -> nat, buf: seq<byte>, attempts: seq<Attempt>)
    requires Opens(crc, buf) && AllSound(crc, buf, attempts) && Climbing(Marker(crc, buf).committedSeq, attempts)
    ensures var last := AfterAll(crc, buf, attempts);
      && Opens(crc, last)
      && Marker(crc, buf).committedSeq <= Marker(crc, last).committedSeq
      && (forall i :: 0 <= i < |attempts| && attempts[i].keep == SLOT_SIZE ==> attempts[i].seqNo <= Marker(crc, last).committedSeq)
      && Marker(crc, last).committedSeq <= (if attempts == [] then Marker(crc, buf).committedSeq else attempts[|attempts| - 1].seqNo)
    decreases |attempts|
  {
    if attempts != [] {
      var rest := attempts[1..];
      var next := AfterOne(crc, buf, attempts[0]);
      assert AfterAll(crc, buf, attempts) == AfterAll(crc, next, rest);
      OneWriteKeepsMarker(crc, buf, attempts[0]);
      PingPongSurvives(crc, next, rest);
      forall i | 0 <= i < |attempts| && attempts[i].keep == SLOT_SIZE
        ensures attempts[i].seqNo <= Marker(crc, AfterAll(crc, buf, attempts)).committedSeq
      {
        assert i > 0 ==> attempts[i] == rest[i - 1];
      }
    }
  }

  /** What create leaves is one slot, and opens. */
  lemma CreatedOpens(crc: seq<byte> -> nat, r: CommitRecord)
    requires InRange(r) && crc(Content(r)) < U32
    ensures Opens(crc, SlotBytes(crc, r)) && Marker(crc, SlotBytes(crc, r)) == r
  {
    SlotRoundTrip(crc, r);
    assert SlotBytes(crc, r)[0..SLOT_SIZE] == SlotBytes(crc, r);
  }
}
