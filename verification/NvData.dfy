/**
 The NVRAM records of a Chromebook firmware image: a log of 16 or 64 byte records in erased flash, the
 last one in force.  A run of the tool rewrites two flags of that record and closes it again.
 */
module NvData {
  import opened Core
  import opened Gf2
  import opened Crc8
  import opened CrcDetection

  const DEV: nat := 4
  const MISC: nat := 8
  const CRC_V1: nat := 15
  const RESERVED_V2: nat := 15
  const CRC_V2: nat := 63

  /** The bits of the two flags in their bytes. */
  const EXTERNAL: nat := 0
  const BOOT_ON_AC: nat := 1

  datatype Change = Keep | Enable | Disable

  datatype Failure = IndexError | InvalidHeader | SizeMismatch | NoRecord | NothingToDo

  datatype Outcome = Updated(image: seq<Byte>) | Failed(failure: Failure)

  // ---------------------------------------------------------------------------------------------
  // Finding the record in force
  // ---------------------------------------------------------------------------------------------

  /** A Python slice: what lies beyond the end is left out. */
  function Slice(fw: seq<Byte>, lo: nat, hi: nat): seq<Byte> {
    if lo >= hi || lo >= |fw| then [] else if hi <= |fw| then fw[lo..hi] else fw[lo..]
  }

  /** The record size that the header byte announces. */
  function RecordSize(header: Byte): (size: Option<nat>)
    ensures size.Some? ==> size.value == 16 || size.value == 64
  {
    if And(header, 0x40) != 0 then Some(16) else if And(header, 0x03) != 0 then Some(64) else None
  }

  /** The header's bit 6 means 16 byte records; without it, bit 0 or bit 1 means 64 byte records. */
  lemma RecordSizeExactly(header: Byte)
    ensures RecordSize(header) == Some(16) <==> Bit(header, 6)
    ensures RecordSize(header) == Some(64) <==> !Bit(header, 6) && (Bit(header, 0) || Bit(header, 1))
    ensures RecordSize(header) == None <==> !Bit(header, 6) && !Bit(header, 0) && !Bit(header, 1)
  {
    HeaderMasks(header);
    hide And, Bit;
  }

  lemma HeaderMasks(header: nat)
    ensures And(header, 0x40) != 0 <==> Bit(header, 6)
    ensures And(header, 0x03) != 0 <==> Bit(header, 0) || Bit(header, 1)
  {
    assert Pow2(6) == 0x40;
    AndTestsBit(header, 6);
    AndHalves(header, 3);
    AndHalves(header / 2, 1);
    AndZero(header / 2 / 2);
    assert Bit(header, 1) == Bit(header / 2, 0);
  }

  predicate ErasedAt(fw: seq<Byte>, at: nat, size: nat) {
    Slice(fw, at, at + size) == Erased(size)
  }

  /** Where slot `k` of the area starts. */
  function SlotAt(offset: nat, size: nat, k: nat): nat {
    offset + size * k
  }

  predicate ErasedSlot(fw: seq<Byte>, offset: nat, size: nat, k: nat) {
    ErasedAt(fw, SlotAt(offset, size, k), size)
  }

  /** Slot `k` is in the area, and it and all slots before it hold records. */
  predicate InUse(fw: seq<Byte>, offset: nat, end: nat, size: nat, k: nat) {
    SlotAt(offset, size, k) < end && forall j: nat :: j <= k ==> !ErasedSlot(fw, offset, size, j)
  }

  /** Slot `k` holds the record in force: no later slot continues the log. */
  predicate InForce(fw: seq<Byte>, offset: nat, end: nat, size: nat, k: nat) {
    InUse(fw, offset, end, size, k) && !InUse(fw, offset, end, size, k + 1)
  }

  lemma InUseBelow(fw: seq<Byte>, offset: nat, end: nat, size: nat, k: nat, m: nat)
    ensures k <= m && InUse(fw, offset, end, size, m) ==> InUse(fw, offset, end, size, k)
  {
    if k <= m {
      assert size * k <= size * m;
    }
  }

  lemma InForceIsUnique(fw: seq<Byte>, offset: nat, end: nat, size: nat, k: nat, m: nat)
    requires InForce(fw, offset, end, size, k) && InForce(fw, offset, end, size, m)
    ensures k == m
  {
    hide InUse;
    InUseBelow(fw, offset, end, size, k + 1, m);
    InUseBelow(fw, offset, end, size, m + 1, k);
  }

  /** The scan loop of `main`. */
  method Scan(fw: seq<Byte>, start: nat, end: nat, size: nat) returns (last: Option<nat>)
    requires size > 0
    ensures last == None <==> !InUse(fw, start, end, size, 0)
    ensures last.Some? ==> exists slot :: last.value == SlotAt(start, size, slot) && InForce(fw, start, end, size, slot)
  {
    hide SlotAt, ErasedSlot, Slice, Erased;
    var offset := start;
    last := None;
    ghost var n: nat := 0;
    ghost var slot: nat := 0;
    Slots(start, size);
    while offset < end
      invariant offset == SlotAt(start, size, n)
      invariant n == 0 <==> last == None
      invariant n > 0 ==> slot == n - 1 && last == Some(SlotAt(start, size, slot)) && InUse(fw, start, end, size, slot)
      decreases end - offset
    {
      var nvdata := Slice(fw, offset, offset + size);
      ErasedSlots(fw, start, size, n);
      if nvdata == Erased(size) {
        break;
      }
      NextSlot(start, size, n);
      last := Some(offset);
      slot := n;
      offset := offset + size;
      n := n + 1;
    }
    InUseBelow(fw, start, end, size, 0, slot);
    assert last.Some? ==> InForce(fw, start, end, size, slot);
  }

  lemma Slots(offset: nat, size: nat)
    ensures SlotAt(offset, size, 0) == offset
  {
  }

  lemma NextSlot(offset: nat, size: nat, k: nat)
    ensures SlotAt(offset, size, k + 1) == SlotAt(offset, size, k) + size
  {
  }

  lemma ErasedSlots(fw: seq<Byte>, offset: nat, size: nat, k: nat)
    ensures ErasedSlot(fw, offset, size, k) <==>
      Slice(fw, SlotAt(offset, size, k), SlotAt(offset, size, k) + size) == Erased(size)
  {
  }

  // ---------------------------------------------------------------------------------------------
  // Rewriting a record
  // ---------------------------------------------------------------------------------------------

  /** A record of either format. */
  predicate Sized(rec: seq<Byte>) {
    |rec| == 16 || |rec| == 64
  }

  /** One flag of a byte as requested. */
  function Flagged(b: Byte, bit: nat, change: Change): (c: Byte)
    requires bit < 8
  {
    OneBit(b, bit);
    match change
    case Keep => b
    case Enable => Or(b, Pow2(bit))
    case Disable => Clear(b, Pow2(bit))
  }

  predicate Meets(b: Byte, bit: nat, change: Change) {
    (change.Enable? ==> Bit(b, bit)) && (change.Disable? ==> !Bit(b, bit))
  }

  lemma {:induction false} BitAdds(b: nat, bit: nat)
    ensures Bit(b, bit) ==> b >= Pow2(bit)
    decreases bit
  {
    if bit > 0 {
      BitAdds(b / 2, bit - 1);
    }
  }

  lemma {:induction false} MissingBitFits(b: nat, bit: nat, n: nat)
    requires bit < n && b < Pow2(n) && !Bit(b, bit)
    ensures b + Pow2(bit) < Pow2(n)
    decreases bit
  {
    if bit > 0 {
      MissingBitFits(b / 2, bit - 1, n - 1);
    } else {
      assert Pow2(n) == 2 * Pow2(n - 1);
    }
  }

  lemma OneBit(b: Byte, bit: nat)
    requires bit < 8
    ensures Or(b, Pow2(bit)) < 256 && Clear(b, Pow2(bit)) < 256
  {
    Pows();
    hide Or, Clear, Pow2, Bit;
    OrBit(b, bit);
    ClearBit(b, bit);
    if !Bit(b, bit) {
      MissingBitFits(b, bit, 8);
    }
  }

  /** The flag gets the requested value, the other bits stay, and a byte that is as requested stays whole. */
  lemma FlagExactly(b: Byte, bit: nat, change: Change)
    requires bit < 8
    ensures Meets(Flagged(b, bit, change), bit, change)
    ensures forall i: nat :: i != bit ==> (Bit(Flagged(b, bit, change), i) <==> Bit(b, i))
    ensures Flagged(b, bit, change) == b <==> Meets(b, bit, change)
  {
    hide Or, Clear, Pow2, Bit;
    OrBit(b, bit);
    ClearBit(b, bit);
  }

  /** The record before it is closed. */
  function Unclosed(rec: seq<Byte>, usb: Change, ac: Change): (r: seq<Byte>)
    requires Sized(rec)
    ensures |r| == |rec|
  {
    var flagged := rec[DEV := Flagged(rec[DEV], EXTERNAL, usb)][MISC := Flagged(rec[MISC], BOOT_ON_AC, ac)];
    if |rec| == 16 then flagged else flagged[RESERVED_V2 := 0xFF]
  }

  /** What a run makes of the record in force. */
  function Rewritten(rec: seq<Byte>, usb: Change, ac: Change): (r: seq<Byte>)
    requires Sized(rec)
    ensures |r| == |rec|
  {
    Closed(Unclosed(rec, usb, ac))
  }

  /** The record with its last byte replaced by the checksum of the others. */
  function Closed(rec: seq<Byte>): (r: seq<Byte>)
    requires |rec| > 0
    ensures |r| == |rec|
  {
    CrcIsByte(rec[..|rec| - 1]);
    rec[|rec| - 1 := Crc(rec[..|rec| - 1])]
  }

  lemma ClosedIsValid(rec: seq<Byte>)
    requires |rec| > 0
    ensures Crc(Closed(rec)) == 0 && (Closed(rec) == rec <==> Crc(rec) == 0)
  {
    hide Crc;
    var n := |rec| - 1;
    CrcIsByte(rec[..n]);
    ClosedExactly(rec[..n], Crc(rec[..n]));
    ClosedExactly(rec[..n], rec[n]);
    assert Closed(rec) == rec[..n] + [Crc(rec[..n])];
    assert rec == rec[..n] + [rec[n]];
  }

  /** Whether the record is as a run with these requests leaves it. */
  predicate Settled(rec: seq<Byte>, usb: Change, ac: Change)
    requires Sized(rec)
  {
    && Meets(rec[DEV], EXTERNAL, usb)
    && Meets(rec[MISC], BOOT_ON_AC, ac)
    && (|rec| == 64 ==> rec[RESERVED_V2] == 0xFF)
    && Crc(rec) == 0
  }

  /**
   For every record and request: only the flag bytes, the checksum and, in the second format, the
   reserved byte change; of the flag bytes only the requested flags change; the flags are as requested,
   and the checksum over the whole record is zero.
   */
  lemma RewriteChangesOnly(rec: seq<Byte>, usb: Change, ac: Change)
    requires Sized(rec)
    ensures Settled(Rewritten(rec, usb, ac), usb, ac)
    ensures forall k :: 0 <= k < |rec| - 1 && k != DEV && k != MISC && k != RESERVED_V2 ==>
      Rewritten(rec, usb, ac)[k] == rec[k]
    ensures forall i: nat :: i != EXTERNAL ==> (Bit(Rewritten(rec, usb, ac)[DEV], i) <==> Bit(rec[DEV], i))
    ensures forall i: nat :: i != BOOT_ON_AC ==> (Bit(Rewritten(rec, usb, ac)[MISC], i) <==> Bit(rec[MISC], i))
    ensures usb == Keep ==> Rewritten(rec, usb, ac)[DEV] == rec[DEV]
    ensures ac == Keep ==> Rewritten(rec, usb, ac)[MISC] == rec[MISC]
  {
    hide Crc, Flagged, Bit;
    FlagExactly(rec[DEV], EXTERNAL, usb);
    FlagExactly(rec[MISC], BOOT_ON_AC, ac);
    ClosedIsValid(Unclosed(rec, usb, ac));
  }

  /** A run leaves a record as it is exactly when the record is settled already. */
  lemma RewriteIsIdleExactly(rec: seq<Byte>, usb: Change, ac: Change)
    requires Sized(rec)
    ensures Rewritten(rec, usb, ac) == rec <==> Settled(rec, usb, ac)
  {
    hide Crc, Flagged, Bit, Closed;
    RewriteChangesOnly(rec, usb, ac);
    if Settled(rec, usb, ac) {
      FlagExactly(rec[DEV], EXTERNAL, usb);
      FlagExactly(rec[MISC], BOOT_ON_AC, ac);
      assert Unclosed(rec, usb, ac) == rec;
      ClosedIsValid(rec);
    }
  }

  /** A rewritten record is never the erased pattern. */
  lemma RewrittenIsNotErased(rec: seq<Byte>, usb: Change, ac: Change)
    requires Sized(rec)
    ensures Rewritten(rec, usb, ac) != Erased(|rec|)
  {
    RewriteChangesOnly(rec, usb, ac);
    hide Rewritten, Erased, Settled, Crc;
    assert Crc(Rewritten(rec, usb, ac)) == 0 by {
      SettledIsClosed(Rewritten(rec, usb, ac), usb, ac);
    }
    if Rewritten(rec, usb, ac) == Erased(|rec|) {
      ErasedIsClosedExactly(|rec|);
    }
  }

  lemma SettledIsClosed(rec: seq<Byte>, usb: Change, ac: Change)
    requires Sized(rec) && Settled(rec, usb, ac)
    ensures Crc(rec) == 0
  {
  }

  /** Setting a flag that was clear and clearing it again gives a settled record back. */
  lemma DisableUndoesEnable(rec: seq<Byte>)
    requires Sized(rec) && Settled(rec, Disable, Keep)
    ensures Rewritten(Rewritten(rec, Enable, Keep), Disable, Keep) == rec
  {
    hide Crc, Or, Clear, Bit, Pow2;
    var on := Rewritten(rec, Enable, Keep);
    var off := Rewritten(on, Disable, Keep);
    OrBit(rec[DEV], EXTERNAL);
    ClearBit(on[DEV], EXTERNAL);
    RewriteIsIdleExactly(rec, Disable, Keep);
    assert on[DEV] == rec[DEV] + Pow2(EXTERNAL);
    assert off[..|rec| - 1] == rec[..|rec| - 1];
  }

  // ---------------------------------------------------------------------------------------------
  // Rewriting the image
  // ---------------------------------------------------------------------------------------------

  /** The image with the record at `last` rewritten and nothing else. */
  function RewrittenAt(fw: seq<Byte>, last: nat, size: nat, usb: Change, ac: Change): (image: seq<Byte>)
    requires size == 16 || size == 64
    requires last + size <= |fw|
    ensures |image| == |fw|
  {
    fw[..last] + Rewritten(fw[last..last + size], usb, ac) + fw[last + size..]
  }

  /**
   The in-place update of the image, store by store.  It fails on an index beyond the end exactly when
   the record does not fit in the image.
   */
  method Rewrite(fw: array<Byte>, last: nat, size: nat, usb: Change, ac: Change) returns (ok: bool)
    requires size == 16 || size == 64
    modifies fw
    ensures ok <==> last + size <= fw.Length
    ensures ok ==> fw[..] == RewrittenAt(old(fw[..]), last, size, usb, ac)
  {
    hide Or, Clear, Crc, Bit, Pow2;
    ghost var was := fw[..];
    if usb != Keep {
      if last + DEV >= fw.Length {
        return false;
      }
      OneBit(fw[last + DEV], EXTERNAL);
      fw[last + DEV] :=
        if usb == Enable then Or(fw[last + DEV], Pow2(EXTERNAL)) else Clear(fw[last + DEV], Pow2(EXTERNAL));
    }
    if ac != Keep {
      if last + MISC >= fw.Length {
        return false;
      }
      OneBit(fw[last + MISC], BOOT_ON_AC);
      fw[last + MISC] :=
        if ac == Enable then Or(fw[last + MISC], Pow2(BOOT_ON_AC)) else Clear(fw[last + MISC], Pow2(BOOT_ON_AC));
    }
    if size == 16 {
      var crc := ComputeCrc8(Slice(fw[..], last, last + CRC_V1));
      if last + CRC_V1 >= fw.Length {
        return false;
      }
      fw[last + CRC_V1] := crc;
    } else {
      if last + RESERVED_V2 >= fw.Length {
        return false;
      }
      fw[last + RESERVED_V2] := 0xFF;
      var crc := ComputeCrc8(Slice(fw[..], last, last + CRC_V2));
      if last + CRC_V2 >= fw.Length {
        return false;
      }
      fw[last + CRC_V2] := crc;
    }
    ok := true;
    assert Slice(fw[..], last, last + size - 1) == fw[last..last + size - 1];
    Assembled(was, last, size, usb, ac, fw[..]);
  }

  lemma Assembled(was: seq<Byte>, last: nat, size: nat, usb: Change, ac: Change, now: seq<Byte>)
    requires size == 16 || size == 64
    requires last + size <= |was| == |now|
    requires forall i :: 0 <= i < |was| && !Stored(i - last, size) ==> now[i] == was[i]
    requires now[last + DEV] == Flagged(was[last + DEV], EXTERNAL, usb)
    requires now[last + MISC] == Flagged(was[last + MISC], BOOT_ON_AC, ac)
    requires size == 64 ==> now[last + RESERVED_V2] == 0xFF
    requires now[last + size - 1] == Crc(now[last..last + size - 1])
    ensures now == RewrittenAt(was, last, size, usb, ac)
  {
    hide Flagged, Crc, Rewritten;
    UntouchedOutside(was, last, size, now);
    var rec, r := was[last..last + size], now[last..last + size];
    assert now[last..last + size - 1] == r[..size - 1];
    forall k | 0 <= k < size && !Stored(k, size)
      ensures r[k] == rec[k]
    {
      assert r[k] == now[last + k] && rec[k] == was[last + k];
    }
    RecordAssembled(rec, usb, ac, r);
    assert now == now[..last] + r + now[last + size..];
  }

  lemma RecordAssembled(rec: seq<Byte>, usb: Change, ac: Change, r: seq<Byte>)
    requires Sized(rec) && |r| == |rec|
    requires forall k :: 0 <= k < |rec| && !Stored(k, |rec|) ==> r[k] == rec[k]
    requires r[DEV] == Flagged(rec[DEV], EXTERNAL, usb) && r[MISC] == Flagged(rec[MISC], BOOT_ON_AC, ac)
    requires |rec| == 64 ==> r[RESERVED_V2] == 0xFF
    requires r[|r| - 1] == Crc(r[..|r| - 1])
    ensures r == Rewritten(rec, usb, ac)
  {
    hide Flagged, Crc;
    forall k | 0 <= k < |r| - 1
      ensures r[k] == Unclosed(rec, usb, ac)[k]
    {
    }
    assert r[..|r| - 1] == Unclosed(rec, usb, ac)[..|r| - 1];
  }

  lemma UntouchedOutside(was: seq<Byte>, last: nat, size: nat, now: seq<Byte>)
    requires size == 16 || size == 64
    requires last + size <= |was| == |now|
    requires forall i :: 0 <= i < |was| && !Stored(i - last, size) ==> now[i] == was[i]
    ensures now[..last] == was[..last] && now[last + size..] == was[last + size..]
  {
    forall i | 0 <= i < |was| && (i < last || i >= last + size)
      ensures now[i] == was[i]
    {
      assert !Stored(i - last, size);
    }
  }

  /** The places in a record that a run stores to. */
  predicate Stored(k: int, size: nat) {
    k == DEV || k == MISC || k == size - 1 || (size == 64 && k == RESERVED_V2)
  }

  // ---------------------------------------------------------------------------------------------
  // A run of the tool
  // ---------------------------------------------------------------------------------------------

  /** What a run that asks for changes may end with. */
  ghost predicate EndsWith(fw: seq<Byte>, offset: nat, bufsize: nat, usb: Change, ac: Change, r: Outcome) {
    if offset >= |fw| then r == Failed(IndexError)
    else match RecordSize(fw[offset])
      case None => r == Failed(InvalidHeader)
      case Some(size) =>
        if bufsize % size != 0 then r == Failed(SizeMismatch)
        else if !InUse(fw, offset, offset + bufsize, size, 0) then r == Failed(NoRecord)
        else exists slot ::
          InForce(fw, offset, offset + bufsize, size, slot)
          && r == Verdict(fw, SlotAt(offset, size, slot), size, usb, ac)
  }

  function Verdict(fw: seq<Byte>, last: nat, size: nat, usb: Change, ac: Change): Outcome
    requires size == 16 || size == 64
  {
    if last + size > |fw| then Failed(IndexError)
    else if Settled(fw[last..last + size], usb, ac) then Failed(NothingToDo)
    else Updated(RewrittenAt(fw, last, size, usb, ac))
  }

  lemma IdleImageExactly(fw: seq<Byte>, last: nat, size: nat, usb: Change, ac: Change)
    requires size == 16 || size == 64
    requires last + size <= |fw|
    ensures RewrittenAt(fw, last, size, usb, ac) == fw <==> Settled(fw[last..last + size], usb, ac)
  {
    hide Rewritten, Settled;
    var rec := fw[last..last + size];
    RewriteIsIdleExactly(rec, usb, ac);
    assert fw == fw[..last] + rec + fw[last + size..];
    assert RewrittenAt(fw, last, size, usb, ac)[last..last + size] == Rewritten(rec, usb, ac);
  }

  /** `main` without `--dump` and `--status`. */
  method Update(original: seq<Byte>, offset: nat, bufsize: nat, usb: Change, ac: Change) returns (r: Outcome)
    ensures EndsWith(original, offset, bufsize, usb, ac, r)
  {
    hide InForce, InUse, Settled, RewrittenAt;
    if offset >= |original| {
      return Failed(IndexError);
    }
    var size := RecordSize(original[offset]);
    if size == None {
      return Failed(InvalidHeader);
    }
    if bufsize % size.value != 0 {
      return Failed(SizeMismatch);
    }
    var last := Scan(original, offset, offset + bufsize, size.value);
    if last == None {
      return Failed(NoRecord);
    }
    var fw := new Byte[|original|](i requires 0 <= i < |original| => original[i]);
    assert fw[..] == original;
    var ok := Rewrite(fw, last.value, size.value, usb, ac);
    if !ok {
      return Failed(IndexError);
    }
    IdleImageExactly(original, last.value, size.value, usb, ac);
    if fw[..] == original {
      return Failed(NothingToDo);
    }
    r := Updated(fw[..]);
  }

  lemma SliceElsewhere(fw: seq<Byte>, last: nat, size: nat, usb: Change, ac: Change, at: nat)
    requires size == 16 || size == 64
    requires last + size <= |fw|
    requires at + size <= last || at >= last + size
    ensures Slice(RewrittenAt(fw, last, size, usb, ac), at, at + size) == Slice(fw, at, at + size)
  {
    hide Rewritten;
    var image := RewrittenAt(fw, last, size, usb, ac);
    assert forall i :: 0 <= i < |fw| && (i < last || i >= last + size) ==> image[i] == fw[i];
  }

  /** Only the slot of the record itself can change between holding a record and being erased, and does not. */
  lemma SlotsStay(fw: seq<Byte>, offset: nat, size: nat, slot: nat, usb: Change, ac: Change, j: nat)
    requires size == 16 || size == 64
    requires SlotAt(offset, size, slot) + size <= |fw|
    requires j == slot ==> !ErasedSlot(fw, offset, size, j)
    ensures ErasedSlot(RewrittenAt(fw, SlotAt(offset, size, slot), size, usb, ac), offset, size, j) <==>
      ErasedSlot(fw, offset, size, j)
  {
    hide Rewritten, Erased, Slice, RewrittenAt, SlotAt;
    var last := SlotAt(offset, size, slot);
    if j == slot {
      RewrittenIsNotErased(fw[last..last + size], usb, ac);
      RewrittenRecord(fw, last, size, usb, ac);
      WholeSlice(RewrittenAt(fw, last, size, usb, ac), last, size);
    } else {
      SlotsApart(offset, size, j, slot);
      SlotsApart(offset, size, slot, j);
      SliceElsewhere(fw, last, size, usb, ac, SlotAt(offset, size, j));
    }
  }

  lemma HeaderStays(fw: seq<Byte>, offset: nat, size: nat, slot: nat, usb: Change, ac: Change)
    requires size == 16 || size == 64
    requires SlotAt(offset, size, slot) + size <= |fw|
    ensures offset < |fw| && RewrittenAt(fw, SlotAt(offset, size, slot), size, usb, ac)[offset] == fw[offset]
  {
    hide Rewritten, SlotAt;
    SlotsApart(offset, size, 0, slot);
    var last := SlotAt(offset, size, slot);
    RewriteChangesOnly(fw[last..last + size], usb, ac);
  }

  /** After an update, a scan finds the same record, and the header still announces the same size. */
  lemma RescanFindsTheSame(fw: seq<Byte>, offset: nat, end: nat, size: nat, slot: nat, usb: Change, ac: Change)
    requires size == 16 || size == 64
    requires InForce(fw, offset, end, size, slot)
    requires SlotAt(offset, size, slot) + size <= |fw|
    ensures offset < |fw| && RewrittenAt(fw, SlotAt(offset, size, slot), size, usb, ac)[offset] == fw[offset]
    ensures InForce(RewrittenAt(fw, SlotAt(offset, size, slot), size, usb, ac), offset, end, size, slot)
  {
    hide ErasedSlot, RewrittenAt, SlotAt;
    HeaderStays(fw, offset, size, slot, usb, ac);
    var image := RewrittenAt(fw, SlotAt(offset, size, slot), size, usb, ac);
    forall j: nat
      ensures ErasedSlot(image, offset, size, j) <==> ErasedSlot(fw, offset, size, j)
    {
      SlotsStay(fw, offset, size, slot, usb, ac, j);
    }
  }

  lemma WholeSlice(fw: seq<Byte>, at: nat, size: nat)
    requires size > 0 && at + size <= |fw|
    ensures Slice(fw, at, at + size) == fw[at..at + size]
  {
  }

  lemma SlotsApart(offset: nat, size: nat, j: nat, k: nat)
    ensures j < k ==> SlotAt(offset, size, j) + size <= SlotAt(offset, size, k)
    ensures SlotAt(offset, size, 0) == offset
  {
    if j < k {
      assert size * (j + 1) <= size * k;
    }
  }

  /**
   A run that updates the image changes one record in it; running the tool on the new image finds that
   record again and has nothing left to do.
   */
  lemma SecondRunIsIdle(fw: seq<Byte>, offset: nat, bufsize: nat, usb: Change, ac: Change, image: seq<Byte>, r: Outcome)
    requires EndsWith(fw, offset, bufsize, usb, ac, Updated(image))
    requires EndsWith(image, offset, bufsize, usb, ac, r)
    ensures r == Failed(NothingToDo) && image != fw
  {
    hide InUse, Settled, Rewritten, RecordSize, RewrittenAt, SlotAt;
    var size := RecordSize(fw[offset]).value;
    var end := offset + bufsize;
    var slot :| InForce(fw, offset, end, size, slot)
      && Updated(image) == Verdict(fw, SlotAt(offset, size, slot), size, usb, ac);
    var last := SlotAt(offset, size, slot);
    RescanFindsTheSame(fw, offset, end, size, slot, usb, ac);
    InUseBelow(image, offset, end, size, 0, slot);
    var again :| InForce(image, offset, end, size, again)
      && r == Verdict(image, SlotAt(offset, size, again), size, usb, ac);
    InForceIsUnique(image, offset, end, size, slot, again);
    IdleImageExactly(fw, last, size, usb, ac);
    RewriteChangesOnly(fw[last..last + size], usb, ac);
    RewrittenRecord(fw, last, size, usb, ac);
  }

  ghost predicate SameButBit(b: nat, c: nat, bit: nat) {
    forall i: nat :: i != bit ==> (Bit(b, i) <==> Bit(c, i))
  }

  /**
   Of a record only the bytes 4 and 8, the last one and, of 64, byte 15 have changed; of byte 4 only bit 0
   and of byte 8 only bit 1, as requested; and the checksum over the record is zero.
   */
  ghost predicate Revised(rec: seq<Byte>, r: seq<Byte>, usb: Change, ac: Change)
    requires |rec| == |r| >= 16
  {
    && (forall k :: 0 <= k < |r| - 1 && k != 4 && k != 8 && k != 15 ==> r[k] == rec[k])
    && Meets(r[4], 0, usb) && SameButBit(r[4], rec[4], 0) && (usb == Keep ==> r[4] == rec[4])
    && Meets(r[8], 1, ac) && SameButBit(r[8], rec[8], 1) && (ac == Keep ==> r[8] == rec[8])
    && Crc(r) == 0
  }

  /** From `fw` to `image` the record of `size` bytes at `at` was revised and nothing else. */
  ghost predicate OneRecord(fw: seq<Byte>, image: seq<Byte>, at: nat, size: nat, usb: Change, ac: Change)
    requires size >= 16
  {
    && |image| == |fw| && at + size <= |fw|
    && (forall i :: 0 <= i < |fw| && (i < at || at + size <= i) ==> image[i] == fw[i])
    && Revised(fw[at..at + size], image[at..at + size], usb, ac)
  }

  /** One of the records in the area, which starts at `offset`, was revised and nothing else. */
  ghost predicate SomeRecord(fw: seq<Byte>, image: seq<Byte>, offset: nat, bufsize: nat, size: nat, usb: Change,
                             ac: Change)
    requires size >= 16
  {
    exists k: nat ::
      SlotAt(offset, size, k) < offset + bufsize && OneRecord(fw, image, SlotAt(offset, size, k), size, usb, ac)
  }

  lemma RewrittenIsRevised(rec: seq<Byte>, usb: Change, ac: Change)
    requires Sized(rec)
    ensures Revised(rec, Rewritten(rec, usb, ac), usb, ac)
  {
    hide Rewritten, Bit, Crc;
    RewriteChangesOnly(rec, usb, ac);
  }

  lemma RewrittenAtIsOneRecord(fw: seq<Byte>, at: nat, size: nat, usb: Change, ac: Change)
    requires size == 16 || size == 64
    requires at + size <= |fw|
    ensures OneRecord(fw, RewrittenAt(fw, at, size, usb, ac), at, size, usb, ac)
  {
    hide Rewritten, Revised;
    RewrittenIsRevised(fw[at..at + size], usb, ac);
    RewrittenRecord(fw, at, size, usb, ac);
  }

  /**
   What an update writes, by the bits of the header byte: one record of 16 or of 64 bytes, a whole number
   of records after the start of the area, is changed as requested and closed; all else is as it was.
   */
  lemma UpdateChangesOneRecord(fw: seq<Byte>, offset: nat, bufsize: nat, usb: Change, ac: Change, image: seq<Byte>)
    requires EndsWith(fw, offset, bufsize, usb, ac, Updated(image))
    ensures offset < |fw| && (Bit(fw[offset], 6) || Bit(fw[offset], 0) || Bit(fw[offset], 1))
    ensures SomeRecord(fw, image, offset, bufsize, if Bit(fw[offset], 6) then 16 else 64, usb, ac)
  {
    hide InForce, RecordSize, RewrittenAt, Bit, Settled, OneRecord, SomeRecord, SlotAt;
    RecordSizeExactly(fw[offset]);
    var size := RecordSize(fw[offset]).value;
    var slot :| InForce(fw, offset, offset + bufsize, size, slot)
      && Updated(image) == Verdict(fw, SlotAt(offset, size, slot), size, usb, ac);
    InForceIsInArea(fw, offset, offset + bufsize, size, slot);
    RewrittenAtIsOneRecord(fw, SlotAt(offset, size, slot), size, usb, ac);
    IsSomeRecord(fw, image, offset, bufsize, size, slot, usb, ac);
  }

  lemma IsSomeRecord(fw: seq<Byte>, image: seq<Byte>, offset: nat, bufsize: nat, size: nat, k: nat, usb: Change,
                     ac: Change)
    requires size >= 16 && SlotAt(offset, size, k) < offset + bufsize
    requires OneRecord(fw, image, SlotAt(offset, size, k), size, usb, ac)
    ensures SomeRecord(fw, image, offset, bufsize, size, usb, ac)
  {
    hide OneRecord, SlotAt;
  }

  lemma InForceIsInArea(fw: seq<Byte>, offset: nat, end: nat, size: nat, k: nat)
    requires InForce(fw, offset, end, size, k)
    ensures SlotAt(offset, size, k) < end
  {
  }

  lemma RewrittenRecord(fw: seq<Byte>, last: nat, size: nat, usb: Change, ac: Change)
    requires size == 16 || size == 64
    requires last + size <= |fw|
    ensures RewrittenAt(fw, last, size, usb, ac)[last..last + size] == Rewritten(fw[last..last + size], usb, ac)
  {
  }
}
