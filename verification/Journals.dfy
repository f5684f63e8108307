/**
 * The intent journal and its tombstones (src-tauri/src/core/config_commit.rs, lines 10-14, 118-132 and
 * 984-1037). An operation id carries the 32-bit words its digest yields, so the digest is any function of the id.
 */
module Journals {
  import opened Wrappers

  const MAX_RECORDS: nat := 512
  const RECENT: nat := 128
  const TOMBSTONE_WORDS: nat := 8192
  const TOMBSTONE_BITS: nat := TOMBSTONE_WORDS * 64

  datatype OpId = OpId(uuid: nat, digest: (bv32, bv32, bv32, bv32))

  datatype Version = Version(boot: string, sequence: nat)

  datatype Record = Record(op: OpId, accounts: seq<string>, committed: bool, complete: bool, version: Version)

  datatype Journal = Journal(records: seq<Record>, expired: seq<bv64>)

  // ---------- words and bits ----------

  function Bit(w: bv32): (b: nat)
    ensures b < TOMBSTONE_BITS
  {
    (w as nat) % TOMBSTONE_BITS
  }

  /** `operation_positions`. */
  function Positions(op: OpId): (r: seq<nat>)
    ensures |r| == 4 && forall i | 0 <= i < 4 :: r[i] < TOMBSTONE_BITS
  {
    [Bit(op.digest.0), Bit(op.digest.1), Bit(op.digest.2), Bit(op.digest.3)]
  }

  function Place(bit: nat): (k: bv7)
    ensures k as nat == bit % 64 && k < 64
  {
    (bit % 64) as bv7
  }

  function Mask(bit: nat): bv64 {
    (1 as bv64) << Place(bit)
  }

  predicate Overlap(w: bv64, m: bv64) {
    w & m != 0
  }

  function Joined(w: bv64, m: bv64): bv64 {
    w | m
  }

  predicate IsSet(words: seq<bv64>, bit: nat) {
    bit / 64 < |words| && Overlap(words[bit / 64], Mask(bit))
  }

  function Set(words: seq<bv64>, bit: nat): (r: seq<bv64>)
    requires bit / 64 < |words|
    ensures |r| == |words|
  {
    words[bit / 64 := Joined(words[bit / 64], Mask(bit))]
  }

  lemma {:induction false} MaskNotZero(bit: nat)
    ensures Mask(bit) != 0
  {
    ShiftNotZero(Place(bit));
  }

  lemma {:induction false} ShiftNotZero(k: bv7)
    requires k < 64
    ensures (1 as bv64) << k != 0
  {
  }

  lemma {:induction false} JoinedOverlaps(w: bv64, m: bv64)
    requires m != 0
    ensures Overlap(Joined(w, m), m)
  {
  }

  lemma {:induction false} JoinedKeeps(w: bv64, m: bv64, x: bv64)
    requires Overlap(w, x)
    ensures Overlap(Joined(w, m), x)
  {
  }

  /** Setting a bit sets it and clears none. */
  lemma {:induction false} SetSets(words: seq<bv64>, bit: nat)
    requires bit / 64 < |words|
    ensures IsSet(Set(words, bit), bit)
  {
    MaskNotZero(bit);
    JoinedOverlaps(words[bit / 64], Mask(bit));
    hide Mask, Overlap, Joined;
  }

  lemma {:induction false} SetKeeps(words: seq<bv64>, bit: nat, b: nat)
    requires bit / 64 < |words| && IsSet(words, b)
    ensures IsSet(Set(words, bit), b)
  {
    hide Mask, Overlap, Joined;
    if bit / 64 == b / 64 {
      JoinedKeeps(words[bit / 64], Mask(bit), Mask(b));
    }
  }

  lemma {:induction false} OrDistributes(w: bv64, m: bv64, x: bv64)
    ensures Joined(w, m) & x == Joined(w & x, m & x)
  {
  }

  lemma {:induction false} OrIsZero(a: bv64, b: bv64)
    ensures Joined(a, b) == 0 <==> a == 0 && b == 0
  {
  }

  lemma {:induction false} JoinedExactly(w: bv64, m: bv64, x: bv64)
    ensures Overlap(Joined(w, m), x) <==> Overlap(w, x) || Overlap(m, x)
  {
    hide Joined;
    OrDistributes(w, m, x);
    OrIsZero(w & x, m & x);
  }

  lemma {:induction false} SamePlace(a: nat, b: nat)
    ensures Place(a) == Place(b) <==> a % 64 == b % 64
  {
  }

  lemma {:induction false} ShiftsApart(k: bv7, n: bv7)
    requires k < 64 && n < 64
    ensures Overlap((1 as bv64) << k, (1 as bv64) << n) <==> k == n
  {
  }

  lemma {:induction false} MasksApart(a: nat, b: nat)
    ensures Overlap(Mask(a), Mask(b)) <==> a % 64 == b % 64
  {
    SamePlace(a, b);
    hide Overlap, Place;
    ShiftsApart(Place(a), Place(b));
  }

  /** Setting a bit changes no other bit. */
  lemma {:induction false} SetExactly(words: seq<bv64>, bit: nat, b: nat)
    requires bit / 64 < |words|
    ensures IsSet(Set(words, bit), b) <==> IsSet(words, b) || b == bit
  {
    MasksApart(bit, b);
    hide Mask, Overlap, Joined;
    if bit / 64 == b / 64 {
      JoinedExactly(words[bit / 64], Mask(bit), Mask(b));
    }
  }

  function Ones(w: bv64): nat
    decreases w
  {
    if w == 0 then 0
    else
      HalfSmaller(w);
      (if Odd(w) then 1 else 0) + Ones(Half(w))
  }

  predicate Odd(w: bv64) {
    w & 1 != 0
  }

  function Half(w: bv64): bv64 {
    w >> 1
  }

  predicate Within(w: bv64, x: bv64) {
    w & x == w
  }

  lemma {:induction false} HalfSmaller(w: bv64)
    requires w != 0
    ensures Half(w) < w
  {
  }

  lemma {:induction false} WithinHalf(w: bv64, x: bv64)
    requires Within(w, x)
    ensures Within(Half(w), Half(x)) && (Odd(w) ==> Odd(x)) && (x == 0 ==> w == 0)
  {
  }

  lemma {:induction false} OnesMonotone(w: bv64, x: bv64)
    requires Within(w, x)
    ensures Ones(w) <= Ones(x)
    decreases w
  {
    WithinHalf(w, x);
    if w != 0 {
      HalfSmaller(w);
      hide Within, Half, Odd;
      OnesMonotone(Half(w), Half(x));
    }
  }

  lemma {:induction false} JoinedContains(w: bv64, m: bv64)
    ensures Within(w, Joined(w, m))
  {
  }

  function TotalOnes(words: seq<bv64>): nat {
    if words == [] then 0 else Ones(words[0]) + TotalOnes(words[1..])
  }

  lemma {:induction false} MoreOnes(words: seq<bv64>, i: nat, w: bv64)
    requires i < |words| && Within(words[i], w)
    ensures TotalOnes(words) <= TotalOnes(words[i := w])
    decreases |words|
  {
    hide Within, Ones;
    if i == 0 {
      OnesMonotone(words[0], w);
      assert words[0 := w][1..] == words[1..];
    } else {
      MoreOnes(words[1..], i - 1, w);
      assert words[i := w][1..] == words[1..][i - 1 := w];
    }
  }

  lemma {:induction false} SetAddsOnes(words: seq<bv64>, bit: nat)
    requires bit / 64 < |words|
    ensures TotalOnes(words) <= TotalOnes(Set(words, bit))
  {
    JoinedContains(words[bit / 64], Mask(bit));
    hide Mask, Joined, Within;
    MoreOnes(words, bit / 64, Joined(words[bit / 64], Mask(bit)));
  }

  // ---------- tombstones ----------

  function SetAll(words: seq<bv64>, bits: seq<nat>): (r: seq<bv64>)
    requires forall i | 0 <= i < |bits| :: bits[i] / 64 < |words|
    ensures |r| == |words|
    decreases |bits|
  {
    if bits == [] then words else SetAll(Set(words, bits[0]), bits[1..])
  }

  /** `expired_operation`. */
  predicate Expired(words: seq<bv64>, op: OpId) {
    words != [] && forall b | b in Positions(op) :: IsSet(words, b)
  }

  /** `tombstones_saturated`. */
  predicate Saturated(words: seq<bv64>) {
    TotalOnes(words) >= TOMBSTONE_BITS / 2
  }

  function RememberAll(words: seq<bv64>, ops: seq<OpId>): (r: seq<bv64>)
    requires |words| == TOMBSTONE_WORDS
    ensures |r| == |words|
    decreases |ops|
  {
    if ops == [] then words else RememberAll(SetAll(words, Positions(ops[0])), ops[1..])
  }

  /** Nothing is cleared. */
  ghost predicate Covers(words: seq<bv64>, words': seq<bv64>) {
    && |words| == |words'| && TotalOnes(words) <= TotalOnes(words')
    && forall b | IsSet(words, b) :: IsSet(words', b)
  }

  lemma {:induction false} SetAllSets(words: seq<bv64>, bits: seq<nat>)
    requires forall i | 0 <= i < |bits| :: bits[i] / 64 < |words|
    ensures Covers(words, SetAll(words, bits)) && forall b | b in bits :: IsSet(SetAll(words, bits), b)
    decreases |bits|
  {
    if bits != [] {
      var next := Set(words, bits[0]);
      SetSets(words, bits[0]);
      SetAddsOnes(words, bits[0]);
      forall b | IsSet(words, b) ensures IsSet(next, b) {
        SetKeeps(words, bits[0], b);
      }
      SetAllSets(next, bits[1..]);
      hide IsSet, Set;
      assert bits == [bits[0]] + bits[1..];
    }
  }

  lemma {:induction false} SetAllExactly(words: seq<bv64>, bits: seq<nat>, b: nat)
    requires forall i | 0 <= i < |bits| :: bits[i] / 64 < |words|
    ensures IsSet(SetAll(words, bits), b) <==> IsSet(words, b) || b in bits
    decreases |bits|
  {
    if bits != [] {
      SetExactly(words, bits[0], b);
      SetAllExactly(Set(words, bits[0]), bits[1..], b);
      hide IsSet, Set;
      assert bits == [bits[0]] + bits[1..];
    }
  }

  /** The bits set afterwards are those set before and the four of each operation. */
  lemma {:induction false} RememberedExactly(words: seq<bv64>, ops: seq<OpId>, b: nat)
    requires |words| == TOMBSTONE_WORDS
    ensures IsSet(RememberAll(words, ops), b) <==> IsSet(words, b) || exists op | op in ops :: b in Positions(op)
    decreases |ops|
  {
    if ops != [] {
      SetAllExactly(words, Positions(ops[0]), b);
      RememberedExactly(SetAll(words, Positions(ops[0])), ops[1..], b);
      hide IsSet, SetAll, Positions;
      assert ops == [ops[0]] + ops[1..];
    }
  }

  /** The four bits of an operation are the words of its digest, modulo the 524288 bits there are. */
  lemma {:induction false} PositionsAre(op: OpId)
    ensures forall b :: b in Positions(op) <==>
      b == op.digest.0 as nat % 524288 || b == op.digest.1 as nat % 524288
      || b == op.digest.2 as nat % 524288 || b == op.digest.3 as nat % 524288
  {
  }

  lemma {:induction false} RememberedAll(words: seq<bv64>, ops: seq<OpId>)
    requires |words| == TOMBSTONE_WORDS
    ensures Covers(words, RememberAll(words, ops)) && forall op | op in ops :: Expired(RememberAll(words, ops), op)
    decreases |ops|
  {
    if ops != [] {
      var next := SetAll(words, Positions(ops[0]));
      SetAllSets(words, Positions(ops[0]));
      RememberedAll(next, ops[1..]);
      hide IsSet, SetAll, Positions;
      assert ops == [ops[0]] + ops[1..];
    }
  }

  // ---------- compaction ----------

  predicate WellFormed(j: Journal) {
    j.expired == [] || |j.expired| == TOMBSTONE_WORDS
  }

  predicate Keeps(records: seq<Record>, i: nat)
    requires i < |records|
  {
    records[i].accounts != [] || i + RECENT >= |records|
  }

  function KeptFrom(records: seq<Record>, i: nat): seq<Record>
    requires i <= |records|
    decreases |records| - i
  {
    if i == |records| then [] else (if Keeps(records, i) then [records[i]] else []) + KeptFrom(records, i + 1)
  }

  function DroppedFrom(records: seq<Record>, i: nat): seq<OpId>
    requires i <= |records|
    decreases |records| - i
  {
    if i == |records| then [] else (if Keeps(records, i) then [] else [records[i].op]) + DroppedFrom(records, i + 1)
  }

  function ZeroWords(n: nat): (r: seq<bv64>)
    ensures |r| == n
  {
    if n == 0 then [] else [0 as bv64] + ZeroWords(n - 1)
  }

  const ZEROS := ZeroWords(TOMBSTONE_WORDS)

  function Tombstones(j: Journal): (r: seq<bv64>)
    requires WellFormed(j)
  {
    if DroppedFrom(j.records, 0) == [] then j.expired
    else RememberAll(if j.expired == [] then ZEROS else j.expired, DroppedFrom(j.records, 0))
  }

  /** `compact_journal`: nothing when the history is full. */
  function Compacted(j: Journal): Option<Journal>
    requires WellFormed(j)
  {
    if Saturated(j.expired) || Saturated(Tombstones(j)) then None
      else Some(Journal(KeptFrom(j.records, 0), Tombstones(j)))
  }

  lemma {:induction false} RetainStep(records: seq<Record>, i: nat, kept: seq<Record>, dropped: seq<OpId>)
    requires i < |records|
    ensures kept + KeptFrom(records, i) ==
      (if Keeps(records, i) then kept + [records[i]] else kept) + KeptFrom(records, i + 1)
    ensures dropped + DroppedFrom(records, i) ==
      (if Keeps(records, i) then dropped else dropped + [records[i].op]) + DroppedFrom(records, i + 1)
  {
    assert [] + KeptFrom(records, i + 1) == KeptFrom(records, i + 1);
    assert [] + DroppedFrom(records, i + 1) == DroppedFrom(records, i + 1);
  }

  /** How many of the first `i` records stay. */
  function Rank(records: seq<Record>, i: nat): nat
    requires i <= |records|
  {
    if i == 0 then 0 else Rank(records, i - 1) + if Keeps(records, i - 1) then 1 else 0
  }

  lemma {:induction false} KeptFromAt(records: seq<Record>, from: nat, i: nat)
    requires from <= i < |records| && Keeps(records, i)
    ensures var at := Rank(records, i) - Rank(records, from);
      0 <= at < |KeptFrom(records, from)| && KeptFrom(records, from)[at] == records[i]
    decreases i - from
  {
    if from < i {
      KeptFromAt(records, from + 1, i);
    }
  }

  lemma {:induction false} KeptFromSize(records: seq<Record>, from: nat)
    requires from <= |records|
    ensures |KeptFrom(records, from)| == Rank(records, |records|) - Rank(records, from)
    decreases |records| - from
  {
    if from < |records| {
      KeptFromSize(records, from + 1);
    }
  }

  /**
   * Exactly the records with accounts, or among the newest 128, stay, in their order: a record that stays is found
   * behind as many as stay of those before it, and there are no others.
   */
  lemma {:induction false} KeptExactly(records: seq<Record>)
    ensures forall i | 0 <= i < |records| ::
      Rank(records, i + 1) == Rank(records, i) + if records[i].accounts != [] || i + 128 >= |records| then 1 else 0
    ensures |KeptFrom(records, 0)| == Rank(records, |records|)
    ensures forall i | 0 <= i < |records| && (records[i].accounts != [] || i + 128 >= |records|) ::
      Rank(records, i) < |KeptFrom(records, 0)| && KeptFrom(records, 0)[Rank(records, i)] == records[i]
  {
    KeptFromSize(records, 0);
    forall i | 0 <= i < |records| && Keeps(records, i)
      ensures Rank(records, i) < |KeptFrom(records, 0)| && KeptFrom(records, 0)[Rank(records, i)] == records[i]
    {
      KeptFromAt(records, 0, i);
    }
  }

  lemma {:induction false} KeptOrDropped(records: seq<Record>, from: nat, i: nat)
    requires from <= i < |records|
    ensures if Keeps(records, i) then records[i] in KeptFrom(records, from)
      else records[i].op in DroppedFrom(records, from)
    decreases i - from
  {
    if from < i {
      KeptOrDropped(records, from + 1, i);
    }
  }

  /** `read_journal` refuses a journal in which an id has two records. */
  predicate DistinctRecords(records: seq<Record>) {
    forall i, j | 0 <= i < j < |records| :: records[i].op != records[j].op
  }

  lemma {:induction false} KeptComeFrom(records: seq<Record>, from: nat, k: nat) returns (i: nat)
    requires from <= |records| && k < |KeptFrom(records, from)|
    ensures from <= i < |records| && records[i] == KeptFrom(records, from)[k]
    decreases |records| - from
  {
    if Keeps(records, from) {
      if k == 0 {
        i := from;
      } else {
        i := KeptComeFrom(records, from + 1, k - 1);
      }
    } else {
      i := KeptComeFrom(records, from + 1, k);
    }
  }

  lemma {:induction false} KeptDistinct(records: seq<Record>, from: nat)
    requires from <= |records| && DistinctRecords(records)
    ensures DistinctRecords(KeptFrom(records, from))
    decreases |records| - from
  {
    if from < |records| {
      KeptDistinct(records, from + 1);
      var rest := KeptFrom(records, from + 1);
      if Keeps(records, from) {
        assert KeptFrom(records, from) == [records[from]] + rest;
        forall k | 0 <= k < |rest| ensures rest[k].op != records[from].op {
          var i := KeptComeFrom(records, from + 1, k);
        }
      }
    }
  }

  lemma {:induction false} KeptAreRecords(records: seq<Record>, from: nat, r: Record)
    requires from <= |records| && r in KeptFrom(records, from)
    ensures r in records
    decreases |records| - from
  {
    if from < |records| && !(Keeps(records, from) && r == records[from]) {
      KeptAreRecords(records, from + 1, r);
    }
  }

  // ---------- an id is never forgotten ----------

  predicate Listed(records: seq<Record>, op: OpId) {
    exists r | r in records :: r.op == op
  }

  /** The id is in a record or tests positive. */
  predicate Remembered(j: Journal, op: OpId) {
    Listed(j.records, op) || Expired(j.expired, op)
  }

  lemma {:induction false} TombstonesCover(j: Journal)
    requires WellFormed(j)
    ensures |Tombstones(j)| == |j.expired| || (j.expired == [] && |Tombstones(j)| == TOMBSTONE_WORDS)
    ensures forall op | Expired(j.expired, op) :: Expired(Tombstones(j), op)
    ensures forall op | op in DroppedFrom(j.records, 0) :: Expired(Tombstones(j), op)
    ensures TotalOnes(j.expired) <= TotalOnes(Tombstones(j))
  {
    var dropped := DroppedFrom(j.records, 0);
    if dropped != [] {
      RememberedAll(if j.expired == [] then ZEROS else j.expired, dropped);
      hide IsSet, RememberAll, Positions;
    }
  }

  /**
   * Compaction forgets nothing, clears no bit, keeps every account listed, and leaves less than half of the bits set.
   */
  lemma {:induction false} CompactionForgetsNothing(j: Journal)
    requires WellFormed(j) && Compacted(j).Some?
    ensures var j' := Compacted(j).value;
      && WellFormed(j') && !Saturated(j'.expired)
      && (forall op | Remembered(j, op) :: Remembered(j', op))
      && (forall op | Expired(j.expired, op) :: Expired(j'.expired, op))
      && (forall i | 0 <= i < |j.records| && !Keeps(j.records, i) :: Expired(j'.expired, j.records[i].op))
      && (forall r | r in j.records && r.accounts != [] :: r in j'.records)
      && (forall r | r in j'.records :: r in j.records)
  {
    TombstonesCover(j);
    forall i | 0 <= i < |j.records|
      ensures if Keeps(j.records, i) then j.records[i] in KeptFrom(j.records, 0)
              else j.records[i].op in DroppedFrom(j.records, 0)
    {
      KeptOrDropped(j.records, 0, i);
    }
    forall r | r in KeptFrom(j.records, 0) ensures r in j.records {
      KeptAreRecords(j.records, 0, r);
    }
    hide Expired, KeptFrom, DroppedFrom, Tombstones, Saturated;
    forall op | Listed(j.records, op) ensures Remembered(Compacted(j).value, op) {
      var i :| 0 <= i < |j.records| && j.records[i].op == op;
    }
  }

  /** The bits of a compacted journal are those it had and the four of each dropped record. */
  lemma {:induction false} CompactedBits(j: Journal, b: nat)
    requires WellFormed(j) && Compacted(j).Some?
    ensures IsSet(Compacted(j).value.expired, b) <==>
      || IsSet(j.expired, b)
      || exists i | 0 <= i < |j.records| :: !Keeps(j.records, i) && b in Positions(j.records[i].op)
  {
    var dropped := DroppedFrom(j.records, 0);
    ZeroWordsAt(TOMBSTONE_WORDS);
    NoneSet(ZEROS, b);
    if dropped != [] {
      RememberedExactly(if j.expired == [] then ZEROS else j.expired, dropped, b);
    }
    hide Positions, IsSet, RememberAll, Keeps;
    forall i | 0 <= i < |j.records| && !Keeps(j.records, i) ensures j.records[i].op in dropped {
      KeptOrDropped(j.records, 0, i);
    }
    forall op | op in dropped ensures exists i | 0 <= i < |j.records| :: !Keeps(j.records, i) && j.records[i].op == op {
      DroppedComeFrom(j.records, 0, op);
    }
    assert !IsSet([], b) by { NoneSet([], b); }
    hide DroppedFrom, KeptFrom, Saturated;
  }

  /** An operation tests positive if and only if there are tombstones and its four bits are set. */
  lemma {:induction false} ExpiredIff(words: seq<bv64>, op: OpId)
    ensures Expired(words, op) <==>
      && words != []
      && IsSet(words, op.digest.0 as nat % 524288) && IsSet(words, op.digest.1 as nat % 524288)
      && IsSet(words, op.digest.2 as nat % 524288) && IsSet(words, op.digest.3 as nat % 524288)
  {
    PositionsAre(op);
    hide IsSet, Positions;
  }

  /** After a compaction an operation tests positive only if each of its bits was set or is one of a dropped record. */
  lemma {:induction false} ExpiredExactly(j: Journal, op: OpId)
    requires WellFormed(j) && Compacted(j).Some?
    ensures Expired(Compacted(j).value.expired, op) <==>
      && Compacted(j).value.expired != []
      && forall b | b in Positions(op) ::
           || IsSet(j.expired, b)
           || exists i | 0 <= i < |j.records| :: !Keeps(j.records, i) && b in Positions(j.records[i].op)
  {
    forall b ensures IsSet(Compacted(j).value.expired, b) <==>
      (IsSet(j.expired, b)
       || exists i | 0 <= i < |j.records| :: !Keeps(j.records, i) && b in Positions(j.records[i].op))
    {
      CompactedBits(j, b);
    }
    hide Compacted, IsSet, Positions, Keeps;
  }

  lemma {:induction false} DroppedComeFrom(records: seq<Record>, from: nat, op: OpId)
    requires from <= |records| && op in DroppedFrom(records, from)
    ensures exists i | from <= i < |records| :: !Keeps(records, i) && records[i].op == op
    decreases |records| - from
  {
    if Keeps(records, from) || records[from].op != op {
      DroppedComeFrom(records, from + 1, op);
    }
  }

  lemma {:induction false} NoneSet(words: seq<bv64>, b: nat)
    requires forall i | 0 <= i < |words| :: words[i] == 0
    ensures !IsSet(words, b)
  {
    ZeroOverlapsNone(Mask(b));
    hide Mask, Overlap;
  }

  lemma {:induction false} ZeroOverlapsNone(m: bv64)
    ensures !Overlap(0, m)
  {
  }

  /** Once half of the bits are set, no compaction succeeds again: bits are only ever added. */
  lemma {:induction false} SaturationIsPermanent(j: Journal)
    requires WellFormed(j)
    ensures Saturated(j.expired) ==> Compacted(j).None? && Saturated(Tombstones(j))
    ensures Compacted(j).None? <==> Saturated(Tombstones(j))
  {
    TombstonesCover(j);
  }

  // ---------- the count is the number of bits that are set ----------

  /** How many of the bits from `bit` up to `end` are set. */
  function SetFrom(words: seq<bv64>, bit: nat, end: nat): nat
    requires bit <= end
    decreases end - bit
  {
    if bit == end then 0 else (if IsSet(words, bit) then 1 else 0) + SetFrom(words, bit + 1, end)
  }

  lemma {:induction false} HalfShifts(w: bv64, k: bv7)
    requires k < 63
    ensures Overlap(Half(w), (1 as bv64) << k) <==> Overlap(w, (1 as bv64) << (k + 1))
  {
  }

  lemma {:induction false} TopIsGone(w: bv64)
    ensures !Overlap(Half(w), (1 as bv64) << (63 as bv7))
    ensures Odd(w) <==> Overlap(w, (1 as bv64) << (0 as bv7))
  {
  }

  lemma {:induction false} Successor(k: bv7)
    requires k < 64
    ensures (k + 1) as nat == k as nat + 1 && k as nat < 64
  {
  }

  lemma {:induction false} SameNumber(k: bv7, n: bv7)
    requires k as nat == n as nat
    ensures k == n
  {
  }

  lemma {:induction false} NextPlace(bit: nat)
    requires bit < 63
    ensures Place(bit + 1) == Place(bit) + 1 && Place(bit) < 63
  {
    hide Place;
    Successor(Place(bit));
    SameNumber(Place(bit + 1), Place(bit) + 1);
  }

  lemma {:induction false} EndPlaces()
    ensures Place(0) == 0 && Place(63) == 63
  {
  }

  lemma {:induction false} HalfSet(w: bv64, bit: nat)
    requires bit < 64
    ensures IsSet([Half(w)], bit) <==> bit < 63 && IsSet([w], bit + 1)
  {
    EndPlaces();
    hide Overlap, Half, Place;
    if bit < 63 {
      NextPlace(bit);
      HalfShifts(w, Place(bit));
    } else {
      TopIsGone(w);
    }
  }

  lemma {:induction false} HalfSetFrom(w: bv64, bit: nat)
    requires bit < 64
    ensures SetFrom([Half(w)], bit, 64) == SetFrom([w], bit + 1, 64)
    decreases 64 - bit
  {
    HalfSet(w, bit);
    hide Half;
    if bit < 63 {
      HalfSetFrom(w, bit + 1);
    } else {
      assert SetFrom([Half(w)], 64, 64) == 0 && SetFrom([w], 64, 64) == 0;
    }
  }

  lemma {:induction false} NoneSetFrom(words: seq<bv64>, bit: nat, end: nat)
    requires bit <= end && forall i | 0 <= i < |words| :: words[i] == 0
    ensures SetFrom(words, bit, end) == 0
    decreases end - bit
  {
    if bit < end {
      NoneSet(words, bit);
      hide IsSet;
      NoneSetFrom(words, bit + 1, end);
    }
  }

  lemma {:induction false} OnesCount(w: bv64)
    ensures Ones(w) == SetFrom([w], 0, 64)
    decreases w
  {
    if w == 0 {
      NoneSetFrom([w], 0, 64);
    } else {
      HalfSmaller(w);
      OnesCount(Half(w));
      HalfSetFrom(w, 0);
      TopIsGone(w);
      EndPlaces();
      hide Half, Odd, Overlap, Place;
      assert IsSet([w], 0) <==> Odd(w);
    }
  }

  lemma {:induction false} WordSetFrom(words: seq<bv64>, bit: nat)
    requires words != [] && bit <= 64
    ensures SetFrom(words, bit, 64) == SetFrom([words[0]], bit, 64)
    decreases 64 - bit
  {
    if bit < 64 {
      assert IsSet(words, bit) <==> IsSet([words[0]], bit) by {
        hide Overlap, Mask;
      }
      hide IsSet;
      WordSetFrom(words, bit + 1);
    }
  }

  lemma {:induction false} RestSetFrom(words: seq<bv64>, bit: nat, end: nat)
    requires words != [] && 64 <= bit <= end
    ensures SetFrom(words, bit, end) == SetFrom(words[1..], bit - 64, end - 64)
    decreases end - bit
  {
    if bit < end {
      assert IsSet(words, bit) <==> IsSet(words[1..], bit - 64) by {
        assert bit / 64 == (bit - 64) / 64 + 1 && bit % 64 == (bit - 64) % 64;
        hide Overlap;
      }
      hide IsSet;
      RestSetFrom(words, bit + 1, end);
    }
  }

  lemma {:induction false} SetFromSplits(words: seq<bv64>, bit: nat, middle: nat, end: nat)
    requires bit <= middle <= end
    ensures SetFrom(words, bit, end) == SetFrom(words, bit, middle) + SetFrom(words, middle, end)
    decreases middle - bit
  {
    hide IsSet;
    if bit < middle {
      SetFromSplits(words, bit + 1, middle, end);
    }
  }

  /** The sum the program forms over the words is the number of bits that are set. */
  lemma {:induction false} TotalOnesCounts(words: seq<bv64>)
    ensures TotalOnes(words) == SetFrom(words, 0, 64 * |words|)
    decreases |words|
  {
    hide IsSet, Ones;
    if words != [] {
      TotalOnesCounts(words[1..]);
      OnesCount(words[0]);
      FirstWordCounts(words, 64 * |words[1..]|);
    }
  }

  lemma {:induction false} FirstWordCounts(words: seq<bv64>, end: nat)
    requires words != []
    ensures SetFrom(words, 0, end + 64) == SetFrom([words[0]], 0, 64) + SetFrom(words[1..], 0, end)
  {
    hide IsSet, SetFrom;
    SetFromSplits(words, 0, 64, end + 64);
    WordSetFrom(words, 0);
    RestSetFrom(words, 64, end + 64);
  }

  /** Compaction fails if and only if half of the 524288 bits would be set. */
  lemma {:induction false} FullIff(j: Journal)
    requires WellFormed(j)
    ensures Compacted(j).None? <==> SetFrom(Tombstones(j), 0, 64 * |Tombstones(j)|) >= 262144
  {
    SaturationIsPermanent(j);
    TotalOnesCounts(Tombstones(j));
    hide Tombstones, Compacted, TotalOnes, SetFrom;
  }

  lemma {:induction false} CompactionShrinks(records: seq<Record>, from: nat)
    requires from <= |records|
    ensures |KeptFrom(records, from)| + |DroppedFrom(records, from)| == |records| - from
    decreases |records| - from
  {
    if from < |records| {
      CompactionShrinks(records, from + 1);
    }
  }

  lemma {:induction false} ZeroWordsAt(n: nat)
    ensures forall i | 0 <= i < n :: ZeroWords(n)[i] == 0
  {
    if n > 0 {
      ZeroWordsAt(n - 1);
    }
  }

  lemma {:induction false} AllZero(words: seq<bv64>)
    requires |words| == TOMBSTONE_WORDS && forall i | 0 <= i < |words| :: words[i] == 0
    ensures words == ZEROS
  {
    ZeroWordsAt(TOMBSTONE_WORDS);
  }

  // ---------- in place ----------

  class CommitJournal {
    var records: seq<Record>
    var expired: array<bv64>

    ghost function Contents(): Journal
      reads this, expired
    {
      Journal(records, expired[..])
    }

    constructor (j: Journal)
      ensures Contents() == j && fresh(expired)
    {
      records := j.records;
      expired := new bv64[|j.expired|](i requires 0 <= i < |j.expired| => j.expired[i]);
      new;
      assert expired[..] == j.expired;
    }

    method CountOnes() returns (n: nat)
      ensures n == TotalOnes(expired[..])
    {
      n := 0;
      for i := 0 to expired.Length
        invariant n + TotalOnes(expired[i..]) == TotalOnes(expired[..])
      {
        assert expired[i..][0] == expired[i] && expired[i..][1..] == expired[i + 1..];
        n := n + Ones(expired[i]);
      }
      assert expired[expired.Length..] == [];
    }

    /** The bits of one operation. */
    method SetBits(op: OpId)
      requires expired.Length == TOMBSTONE_WORDS
      modifies expired
      ensures expired[..] == SetAll(old(expired[..]), Positions(op))
    {
      var bits := Positions(op);
      hide Positions;
      for i := 0 to |bits|
        invariant SetAll(expired[..], bits[i..]) == SetAll(old(expired[..]), bits)
      {
        ghost var before := expired[..];
        assert bits[i..][0] == bits[i] && bits[i..][1..] == bits[i + 1..];
        expired[bits[i] / 64] := Joined(expired[bits[i] / 64], Mask(bits[i]));
        assert expired[..] == Set(before, bits[i]);
      }
    }

    /** Drops the old records without accounts and returns their ids. */
    method Retain() returns (dropped: seq<OpId>)
      modifies this`records
      ensures records == KeptFrom(old(records), 0) && dropped == DroppedFrom(old(records), 0)
    {
      var len, index := |records|, 0;
      var kept := [];
      dropped := [];
      while index < len
        invariant 0 <= index <= len == |records| && records == old(records)
        invariant kept + KeptFrom(records, index) == KeptFrom(records, 0)
        invariant dropped + DroppedFrom(records, index) == DroppedFrom(records, 0)
      {
        hide KeptFrom, DroppedFrom;
        RetainStep(records, index, kept, dropped);
        if records[index].accounts != [] || index + RECENT >= len {
          kept := kept + [records[index]];
        } else {
          dropped := dropped + [records[index].op];
        }
        index := index + 1;
      }
      records := kept;
    }

    method AddTombstones(dropped: seq<OpId>)
      requires expired.Length == TOMBSTONE_WORDS
      modifies expired
      ensures expired[..] == RememberAll(old(expired[..]), dropped)
    {
      for i := 0 to |dropped|
        invariant RememberAll(expired[..], dropped[i..]) == RememberAll(old(expired[..]), dropped)
      {
        assert dropped[i..][0] == dropped[i] && dropped[i..][1..] == dropped[i + 1..];
        SetBits(dropped[i]);
      }
    }

    /** `compact_journal`; after a failure the journal is not used. */
    method Compact() returns (ok: bool)
      requires WellFormed(Contents())
      modifies this, expired
      ensures ok == Compacted(old(Contents())).Some?
      ensures ok ==> Contents() == Compacted(old(Contents())).value
    {
      ghost var start := Contents();
      hide RememberAll, TotalOnes;
      var n := CountOnes();
      if n >= TOMBSTONE_BITS / 2 {
        return false;
      }
      var dropped := Retain();
      if dropped != [] && expired.Length == 0 {
        expired := new bv64[TOMBSTONE_WORDS];
        for i := 0 to expired.Length
          invariant expired.Length == TOMBSTONE_WORDS && fresh(expired)
          invariant forall j | 0 <= j < i :: expired[j] == 0
          modifies expired
        {
          expired[i] := 0;
        }
        AllZero(expired[..]);
      }
      assert dropped != [] ==> expired[..] == if start.expired == [] then ZEROS else start.expired;
      assert dropped == [] ==> expired[..] == start.expired;
      if dropped != [] {
        AddTombstones(dropped);
      }
      assert expired[..] == Tombstones(start) && records == KeptFrom(start.records, 0);
      n := CountOnes();
      ok := n < TOMBSTONE_BITS / 2;
      assert ok ==> Compacted(start) == Some(Journal(records, expired[..]));
    }
  }
}
