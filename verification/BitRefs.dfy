/**
 * The machine words behind the bit sets: each word operation the dispatcher uses computes the set operation
 * that its specification uses.
 */
module BitRefs {
  import opened Media
  import opened DispatcherSpec
  import opened DispatcherInvariant
  import opened DispatcherCore
  import opened Options
  import DispatcherWakes

  const WORD: nat := 32

  // The operators are named so that proofs can treat them as unknown functions.

  function And(x: bv32, y: bv32): bv32 {
    x & y
  }

  function Or(x: bv32, y: bv32): bv32 {
    x | y
  }

  function Not(x: bv32): bv32 {
    !x
  }

  function Twice(x: bv32): bv32 {
    x << 1
  }

  function Half(x: bv32): bv32 {
    x >> 1
  }

  /** RECV_FLAG_BASE << i */
  function Mask(i: nat): bv32 {
    if i == 0 then 1 else Twice(Mask(i - 1))
  }

  predicate TestBit(x: bv32, i: nat) {
    And(x, Mask(i)) != 0
  }

  function SetBit(x: bv32, i: nat): bv32 {
    Or(x, Mask(i))
  }

  function ClearBit(x: bv32, i: nat): bv32 {
    And(x, Not(Mask(i)))
  }

  /** The set that a word stands for. */
  function BitsOf(x: bv32): set<nat> {
    set i: nat | i < WORD && TestBit(x, i)
  }

  // ---------------------------------------------------------------- single-bit masks

  lemma MaskStep(i: nat)
    ensures Mask(i) == if i == 0 then 1 else Twice(Mask(i - 1))
  {
  }

  lemma TwiceZero()
    ensures Twice(0) == 0
  {
  }

  lemma {:induction false} ZeroStaysZero(i: nat)
    requires i < WORD && Mask(i) == 0
    ensures Mask(31) == 0
    decreases WORD - i
  {
    hide Mask, Twice;
    if i < 31 {
      MaskStep(i + 1);
      TwiceZero();
      ZeroStaysZero(i + 1);
    }
  }

  lemma Masks()
    ensures Mask(15) == 0x8000 && Mask(31) == 0x8000_0000
  {
    assert Mask(8) == 0x100;
    assert Mask(15) == 0x8000;
    assert Mask(23) == 0x80_0000;
  }

  lemma MaskNonZero(i: nat)
    requires i < WORD
    ensures Mask(i) != 0
  {
    hide Mask;
    Masks();
    if Mask(i) == 0 {
      ZeroStaysZero(i);
    }
  }

  lemma TwiceAnd(a: bv32, b: bv32)
    ensures And(Twice(a), Twice(b)) == Twice(And(a, b))
    ensures And(1, Twice(b)) == 0 && Twice(0) == 0
  {
  }

  lemma {:induction false} MasksDisjoint(i: nat, j: nat)
    requires i < j
    ensures And(Mask(i), Mask(j)) == 0
  {
    hide Mask, And, Twice;
    MaskStep(i);
    MaskStep(j);
    if i == 0 {
      TwiceAnd(1, Mask(j - 1));
    } else {
      MasksDisjoint(i - 1, j - 1);
      TwiceAnd(Mask(i - 1), Mask(j - 1));
    }
  }

  lemma Commutes(m: bv32, n: bv32)
    ensures And(m, n) == And(n, m)
  {
  }

  lemma MasksApart(i: nat, j: nat)
    requires i != j
    ensures And(Mask(i), Mask(j)) == 0
  {
    hide Mask, And;
    if i < j {
      MasksDisjoint(i, j);
    } else {
      MasksDisjoint(j, i);
      Commutes(Mask(i), Mask(j));
    }
  }

  // ---------------------------------------------------------------- |= and &=

  lemma OtherBitsSet(x: bv32, m: bv32, n: bv32)
    requires And(m, n) == 0
    ensures And(Or(x, m), n) == And(x, n)
  {
  }

  lemma OtherBitsClear(x: bv32, m: bv32, n: bv32)
    requires And(m, n) == 0
    ensures And(And(x, Not(m)), n) == And(x, n)
  {
  }

  lemma OwnBit(x: bv32, m: bv32)
    ensures And(Or(x, m), m) == m
    ensures And(And(x, Not(m)), m) == 0
  {
  }

  /** Raising a bit adds its position, and touches no other receiver's bits. */
  lemma SetBitIsUnion(x: bv32, i: nat)
    requires i < WORD
    ensures BitsOf(SetBit(x, i)) == BitsOf(x) + {i}
  {
    hide Mask, And, Or, Not;
    MaskNonZero(i);
    OwnBit(x, Mask(i));
    forall j: nat | j < WORD && j != i
      ensures TestBit(SetBit(x, i), j) <==> TestBit(x, j)
    {
      MasksApart(i, j);
      OtherBitsSet(x, Mask(i), Mask(j));
    }
  }

  /** Clearing a bit removes its position, and touches no other receiver's bits. */
  lemma ClearBitIsDifference(x: bv32, i: nat)
    requires i < WORD
    ensures BitsOf(ClearBit(x, i)) == BitsOf(x) - {i}
  {
    hide Mask, And, Or, Not;
    OwnBit(x, Mask(i));
    forall j: nat | j < WORD && j != i
      ensures TestBit(ClearBit(x, i), j) <==> TestBit(x, j)
    {
      MasksApart(i, j);
      OtherBitsClear(x, Mask(i), Mask(j));
    }
  }

  // ---------------------------------------------------------------- the XOR test

  /** The low `n` bits. */
  function LowMask(n: nat): bv32 {
    if n == 0 then 0 else Or(LowMask(n - 1), Mask(n - 1))
  }

  lemma LowMaskStep(n: nat)
    ensures LowMask(n) == if n == 0 then 0 else Or(LowMask(n - 1), Mask(n - 1))
  {
  }

  lemma FullMask()
    ensures LowMask(16) == 0xFFFF && LowMask(32) == 0xFFFF_FFFF
  {
    assert LowMask(8) == 0xFF;
    assert LowMask(16) == 0xFFFF;
    assert LowMask(24) == 0xFF_FFFF;
  }

  lemma LowestBit(x: bv32)
    ensures And(x, 1) == 0 || And(x, 1) == 1
  {
  }

  lemma HigherBit(x: bv32, m: bv32)
    ensures And(Half(x), m) == 0 ==> And(x, Twice(m)) == 0
    ensures And(Half(x), m) == m ==> And(x, Twice(m)) == Twice(m)
  {
  }

  /** A single-bit mask keeps all of itself or nothing. */
  lemma {:induction false} OneBit(x: bv32, i: nat)
    ensures And(x, Mask(i)) == 0 || And(x, Mask(i)) == Mask(i)
    decreases i
  {
    hide Mask, And, Twice, Half;
    MaskStep(i);
    if i == 0 {
      LowestBit(x);
    } else {
      OneBit(Half(x), i - 1);
      HigherBit(x, Mask(i - 1));
    }
  }

  lemma AgreeStep(x: bv32, y: bv32, low: bv32, m: bv32)
    requires And(x, low) == And(y, low) && And(x, m) == And(y, m)
    ensures And(x, Or(low, m)) == And(y, Or(low, m))
  {
  }

  lemma AndZero(x: bv32)
    ensures And(x, 0) == 0 && And(x, 0xFFFF_FFFF) == x
  {
  }

  lemma {:induction false} LowBitsAgree(x: bv32, y: bv32, n: nat)
    requires n <= WORD && forall i: nat | i < n :: TestBit(x, i) <==> TestBit(y, i)
    ensures And(x, LowMask(n)) == And(y, LowMask(n))
  {
    hide Mask, LowMask, And, Or;
    LowMaskStep(n);
    if n == 0 {
      AndZero(x);
      AndZero(y);
    } else {
      LowBitsAgree(x, y, n - 1);
      OneBit(x, n - 1);
      OneBit(y, n - 1);
      assert TestBit(x, n - 1) <==> TestBit(y, n - 1);
      AgreeStep(x, y, LowMask(n - 1), Mask(n - 1));
    }
  }

  lemma XorZero(x: bv32, y: bv32)
    ensures x ^ y == 0 <==> x == y
  {
  }

  lemma {:induction false} SameBitsSameWord(x: bv32, y: bv32)
    requires BitsOf(x) == BitsOf(y)
    ensures x == y
  {
    hide LowMask, And, TestBit;
    forall i: nat | i < WORD
      ensures TestBit(x, i) <==> TestBit(y, i)
    {
      assert i in BitsOf(x) <==> i in BitsOf(y);
    }
    LowBitsAgree(x, y, WORD);
    FullMask();
    AndZero(x);
    AndZero(y);
  }

  /** The "needs reserve" test, an XOR of two words, asks whether the sets differ. */
  lemma XorIsDifferent(x: bv32, y: bv32)
    ensures x ^ y != 0 <==> BitsOf(x) != BitsOf(y)
  {
    hide BitsOf;
    XorZero(x, y);
    if BitsOf(x) == BitsOf(y) {
      SameBitsSameWord(x, y);
    }
  }

  // ---------------------------------------------------------------- the lowest free slot

  /** ~flag & -~flag, on the sign-extended 16-bit flag word. */
  function UsableRef(flag: bv32): bv32 {
    !flag & (0 - !flag)
  }

  /** A power of two, with `low` the bits below it. */
  predicate Power(m: bv32, low: bv32) {
    m != 0 && m & (m - 1) == 0 && low == m - 1
  }

  /** With the bits below `m` set and the bit `m` clear, the trick isolates `m`. */
  lemma Isolates(flag: bv32, m: bv32, low: bv32)
    requires Power(m, low) && And(flag, low) == low && And(flag, m) == 0
    ensures UsableRef(flag) == m
  {
  }

  lemma PowerStep(m: bv32, low: bv32)
    requires Power(m, low) && Twice(m) != 0
    ensures Power(Twice(m), Or(low, m))
  {
  }

  lemma PowerOne()
    ensures Power(1, 0)
  {
  }

  /** A mask is a power of two, and the low mask is all the bits below it. */
  lemma {:induction false} MaskIsPower(i: nat)
    requires i < WORD
    ensures Power(Mask(i), LowMask(i))
  {
    hide Mask, LowMask, Power, Twice, Or;
    MaskStep(i);
    LowMaskStep(i);
    MaskNonZero(i);
    if i > 0 {
      MaskIsPower(i - 1);
      PowerStep(Mask(i - 1), LowMask(i - 1));
    } else {
      PowerOne();
    }
  }

  lemma OrKept(x: bv32, low: bv32, m: bv32)
    requires And(x, low) == low && And(x, m) == m
    ensures And(x, Or(low, m)) == Or(low, m)
  {
  }

  lemma {:induction false} LowBitsSet(x: bv32, n: nat)
    requires n <= WORD && forall i: nat | i < n :: TestBit(x, i)
    ensures And(x, LowMask(n)) == LowMask(n)
  {
    hide Mask, LowMask, And, Or;
    LowMaskStep(n);
    if n == 0 {
      AndZero(x);
    } else {
      LowBitsSet(x, n - 1);
      OneBit(x, n - 1);
      assert TestBit(x, n - 1);
      OrKept(x, LowMask(n - 1), Mask(n - 1));
    }
  }

  lemma FullWord(flag: bv32)
    requires And(flag, 0xFFFF) == flag
    ensures And(flag, 0xFFFF) == 0xFFFF <==> flag == 0xFFFF
  {
  }

  /** The flag word 0xFFFF has its sixteen low bits set. */
  lemma {:induction false} FullHasAll(i: nat)
    requires i < 16
    ensures TestBit(0xFFFF, i)
    decreases 16 - i
  {
    hide Mask, And, Twice, Power;
    MaskNonZero(i);
    Masks();
    if i < 15 {
      FullHasAll(i + 1);
      MaskStep(i + 1);
      OneBit(0xFFFF, i + 1);
      MaskNonZero(i + 1);
      HalfKept(Mask(i));
    } else {
      TopKept();
    }
  }

  lemma TopKept()
    ensures And(0xFFFF, 0x8000) != 0
  {
  }

  lemma HalfKept(m: bv32)
    requires And(0xFFFF, Twice(m)) == Twice(m) != 0
    ensures And(0xFFFF, m) != 0
  {
  }

  /**
   * Attach's bit trick selects exactly the slot of the specification, the lowest free one, as a single bit;
   * and the word is full exactly when that search finds none.
   */
  lemma UsableRefIsLowestFree(flag: bv32)
    requires And(flag, 0xFFFF) == flag
    ensures var slot := LowestFree(BitsOf(flag), 0);
            && (slot < MAX_RECEIVER_SIZE ==> UsableRef(flag) == Mask(slot))
            && (flag == 0xFFFF <==> slot == MAX_RECEIVER_SIZE)
  {
    hide Mask, LowMask, LowestFree, UsableRef, And, Power;
    var slot := LowestFree(BitsOf(flag), 0);
    LowestFreeSpec(BitsOf(flag), 0);
    forall j: nat | j < slot
      ensures TestBit(flag, j)
    {
      assert j in BitsOf(flag);
    }
    LowBitsSet(flag, slot);
    if slot < MAX_RECEIVER_SIZE {
      assert !TestBit(flag, slot);
      MaskIsPower(slot);
      Isolates(flag, Mask(slot), LowMask(slot));
      FullHasAll(slot);
    } else {
      FullMask();
      FullWord(flag);
    }
  }

  /** The position that Attach computes for a single bit. */
  function Log2(x: bv32): nat
    decreases x
  {
    if x <= 1 then 0 else HalfSmaller(x); 1 + Log2(Half(x))
  }

  lemma HalfSmaller(x: bv32)
    requires x > 1
    ensures Half(x) < x
  {
  }

  lemma HalfOfTwice(m: bv32)
    requires m != 0 && And(m, 0x8000_0000) == 0
    ensures Half(Twice(m)) == m && Twice(m) > 1
  {
  }

  lemma {:induction false} Log2OfMask(i: nat)
    requires i < WORD
    ensures Log2(Mask(i)) == i
  {
    hide Mask, And, Half, Twice;
    MaskStep(i);
    if i > 0 {
      Masks();
      MasksDisjoint(i - 1, 31);
      MaskNonZero(i - 1);
      HalfOfTwice(Mask(i - 1));
      Log2OfMask(i - 1);
    }
  }

  // ---------------------------------------------------------------- the three words of the dispatcher

  /** readRefFlag_, recvBitRef_ and dataBitRef_ as they are stored. */
  datatype Words = Words(readRef: bv32, recvRef: bv32, dataRef: bv32)

  /** The words stand for the sets, and the flag word has sixteen bits. */
  ghost predicate Holds(w: Words, refs: Refs) {
    && Low(w.readRef) && BitsOf(w.readRef) == refs.readRef
    && BitsOf(w.recvRef) == refs.recvRef && BitsOf(w.dataRef) == refs.dataRef
  }

  function PutBit(x: bv32, i: nat, ready: bool): bv32 {
    if ready then SetBit(x, i) else ClearBit(x, i)
  }

  /** SetReceiverDataRef and SetReceiverReadRef; a mixed receiver is served by two calls. */
  function PutBits(x: bv32, slot: nat, mediaType: MediaType, ready: bool): bv32 {
    match mediaType
    case Audio => PutBit(x, 2 * slot, ready)
    case Video => PutBit(x, 2 * slot + 1, ready)
    case AV => PutBit(PutBit(x, 2 * slot + 1, ready), 2 * slot, ready)
  }

  lemma PutBitPuts(x: bv32, i: nat, ready: bool)
    requires i < WORD
    ensures BitsOf(PutBit(x, i, ready)) == SetBits(BitsOf(x), {i}, ready)
  {
    hide BitsOf, SetBit, ClearBit;
    if ready {
      SetBitIsUnion(x, i);
    } else {
      ClearBitIsDifference(x, i);
    }
  }

  lemma PutBitsPuts(x: bv32, slot: nat, mediaType: MediaType, ready: bool)
    requires slot < MAX_RECEIVER_SIZE
    ensures BitsOf(PutBits(x, slot, mediaType, ready)) == SetBits(BitsOf(x), Bits(slot, mediaType), ready)
  {
    hide BitsOf, PutBit;
    match mediaType
    case Audio => PutBitPuts(x, 2 * slot, ready);
    case Video => PutBitPuts(x, 2 * slot + 1, ready);
    case AV =>
      PutBitPuts(x, 2 * slot + 1, ready);
      PutBitPuts(PutBit(x, 2 * slot + 1, ready), 2 * slot, ready);
  }

  /** The bits from 16 on are clear. */
  predicate Low(x: bv32) {
    x <= 0xFFFF
  }

  lemma LowIsMasked(x: bv32)
    ensures Low(x) <==> And(x, 0xFFFF) == x
  {
  }

  lemma LowWords(x: bv32, m: bv32)
    requires Low(x)
    ensures Low(And(x, m)) && (Low(m) ==> Low(Or(x, m)))
  {
  }

  lemma {:induction false} LowMaskBit(i: nat)
    requires i < 16
    ensures Low(Mask(i)) && Mask(i) <= Mask(15)
    decreases 16 - i
  {
    hide Mask, And, Twice;
    Masks();
    if i < 15 {
      LowMaskBit(i + 1);
      MaskStep(i + 1);
      MaskNonZero(i + 1);
      MaskIsPower(i);
      HalfIsLow(Mask(i), LowMask(i));
    }
  }

  lemma HalfIsLow(m: bv32, low: bv32)
    requires Power(m, low) && Twice(m) <= 0x8000 && Twice(m) != 0
    ensures m <= 0x8000
  {
  }

  // ---------------------------------------------------------------- raising the bits of a new frame

  predicate Wakes(n: Notifier, media: MediaData) {
    IsAudio(media) || !n.keyMode || IsKeyVideo(media)
  }

  function WakeBit(n: Notifier, media: MediaData): nat {
    if IsAudio(media) then 2 * n.readIndex else 2 * n.readIndex + 1
  }

  /** What the loop of ActiveDataRef has collected after visiting the receivers in `order`. */
  function ActiveWord(ns: Notifiers, order: seq<nat>, media: MediaData): bv32 {
    if order == [] then 0
    else
      var x := ActiveWord(ns, order[..|order| - 1], media);
      var id := order[|order| - 1];
      if id in ns && Wakes(ns[id], media) then SetBit(x, WakeBit(ns[id], media)) else x
  }

  function ActiveBits(ns: Notifiers, ids: set<nat>, media: MediaData): set<nat> {
    set id | id in ids && id in ns && Wakes(ns[id], media) :: WakeBit(ns[id], media)
  }

  function Ids(order: seq<nat>): set<nat> {
    set id | id in order
  }

  /** The loop visits every receiver. */
  ghost predicate Lists(order: seq<nat>, ns: Notifiers) {
    Ids(order) == ns.Keys
  }

  lemma NoBits()
    ensures BitsOf(0) == {}
  {
    assert forall m: bv32 :: And(0, m) == 0;
  }

  lemma {:induction false} ActiveWordBits(ns: Notifiers, order: seq<nat>, media: MediaData)
    requires SlotsBounded(ns)
    ensures BitsOf(ActiveWord(ns, order, media)) == ActiveBits(ns, Ids(order), media)
    decreases |order|
  {
    hide BitsOf, SetBit, Wakes, WakeBit, ActiveBits, Ids;
    if order == [] {
      NoBits();
      NoIds(ns, media);
    } else {
      var others, id := order[..|order| - 1], order[|order| - 1];
      ActiveWordBits(ns, others, media);
      OneMoreVisit(ns, order, media);
      if id in ns && Wakes(ns[id], media) {
        WakeBitInWord(ns[id], media);
        SetBitIsUnion(ActiveWord(ns, others, media), WakeBit(ns[id], media));
      }
    }
  }

  lemma NoIds(ns: Notifiers, media: MediaData)
    ensures ActiveBits(ns, Ids([]), media) == {}
  {
  }

  lemma OneMoreVisit(ns: Notifiers, order: seq<nat>, media: MediaData)
    requires order != []
    ensures var id := order[|order| - 1];
            var before := ActiveBits(ns, Ids(order[..|order| - 1]), media);
            ActiveBits(ns, Ids(order), media) ==
            if id in ns && Wakes(ns[id], media) then before + {WakeBit(ns[id], media)} else before
  {
    hide Wakes, WakeBit;
    assert order == order[..|order| - 1] + [order[|order| - 1]];
  }

  lemma WakeBitInWord(n: Notifier, media: MediaData)
    requires n.readIndex < MAX_RECEIVER_SIZE
    ensures WakeBit(n, media) < WORD
  {
  }

  lemma AndDistributes(x: bv32, y: bv32, m: bv32)
    ensures And(Or(x, y), m) == Or(And(x, m), And(y, m))
  {
  }

  lemma OrZero(x: bv32, y: bv32)
    ensures Or(x, y) == 0 <==> x == 0 && y == 0
  {
  }

  lemma OrTests(x: bv32, y: bv32, m: bv32)
    ensures And(Or(x, y), m) != 0 <==> And(x, m) != 0 || And(y, m) != 0
  {
    hide And, Or;
    AndDistributes(x, y, m);
    OrZero(And(x, m), And(y, m));
  }

  lemma OrIsUnion(x: bv32, y: bv32)
    ensures BitsOf(Or(x, y)) == BitsOf(x) + BitsOf(y)
  {
    hide And, Or, Mask;
    forall i: nat | i < WORD
      ensures TestBit(Or(x, y), i) <==> TestBit(x, i) || TestBit(y, i)
    {
      OrTests(x, y, Mask(i));
    }
  }

  // ---------------------------------------------------------------- steps

  /** The words after a frame was input; `order` is the one in which the loop visits the receivers. */
  function InputWords(s: State, media: MediaData, order: seq<nat>, w: Words): Words {
    match Admit(s, media)
    case None => w
    case Some(t) =>
      var u := MakeRoom(t, media);
      if IsAudio(media) || !u.keyOnly || IsKeyVideo(media)
      then w.(dataRef := Or(w.dataRef, ActiveWord(u.q.notifiers, order, media))) else w
  }

  /** What one operation makes of the words. */
  function StepWords(s: State, op: Op, order: seq<nat>, w: Words): Words {
    match op
    case OpInput(media) => InputWords(s, media, order, w)
    case OpAttach(id, _, _) =>
      if id in s.q.notifiers || w.readRef == 0xFFFF then w
      else
        var slot := Log2(UsableRef(w.readRef));
        var (_, _, audioReady, videoReady) := StartPosition(s);
        w.(readRef := Or(w.readRef, UsableRef(w.readRef)),
           dataRef := PutBits(PutBits(w.dataRef, slot, Audio, audioReady), slot, Video, videoReady))
    case OpDetach(id) =>
      if id !in s.q.notifiers then w
      else
        var slot := s.q.notifiers[id].readIndex;
        w.(recvRef := PutBits(PutBits(w.recvRef, slot, Audio, false), slot, Video, false),
           readRef := ClearBit(w.readRef, slot))
    case OpReady(id, mediaType) =>
      if id !in s.q.notifiers then w
      else
        var n := s.q.notifiers[id];
        w.(recvRef := PutBits(w.recvRef, n.readIndex, mediaType, true),
           dataRef := PutBits(w.dataRef, n.readIndex, mediaType, DataAvailable(s.q, n, mediaType)))
    case OpClearReadBit(id, mediaType) =>
      if id !in s.q.notifiers then w
      else w.(recvRef := PutBits(w.recvRef, s.q.notifiers[id].readIndex, mediaType, false))
    case OpClearDataBit(id, mediaType) =>
      if id !in s.q.notifiers then w
      else w.(dataRef := PutBits(w.dataRef, s.q.notifiers[id].readIndex, mediaType, false))
    case OpReceiverKeyMode(id, enable) =>
      if id !in s.q.notifiers || !enable then w
      else w.(dataRef := PutBits(w.dataRef, s.q.notifiers[id].readIndex, Video, false))
    case _ => w
  }

  lemma AdmitRefs(s: State, media: MediaData)
    ensures Admit(s, media).Some? ==> Admit(s, media).value.refs == s.refs
    ensures Admit(s, media).Some? ==> Admit(s, media).value.q.notifiers.Keys == s.q.notifiers.Keys
  {
    hide Recalculate;
  }

  lemma ReadyIsActive(s: State, media: MediaData)
    ensures ReadyBits(s, media) ==
            if IsAudio(media) || !s.keyOnly || IsKeyVideo(media)
            then ActiveBits(s.q.notifiers, s.q.notifiers.Keys, media) else {}
  {
  }

  lemma InputRefs(s: State, media: MediaData)
    ensures Input(s, media).refs ==
            match Admit(s, media)
            case None => s.refs
            case Some(t) => Append(MakeRoom(t, media), media).refs
  {
    hide Admit, MakeRoom, Append;
  }

  lemma InputHolds(s: State, media: MediaData, order: seq<nat>, w: Words)
    requires Core(s) && Holds(w, s.refs) && Lists(order, s.q.notifiers)
    ensures Holds(InputWords(s, media, order, w), Input(s, media).refs)
  {
    hide Core, CoreSized, CoreQ, Admit, MakeRoom, Append, Input, BitsOf, Or, ActiveWord, ActiveBits, ReadyBits, Low,
      SlotsOK, IsSuffix, Before;
    InputRefs(s, media);
    AdmitRefs(s, media);
    AdmitCore(s, media);
    if Admit(s, media).Some? {
      var t := Admit(s, media).value;
      CoreParts(t);
      MakeRoomCore(t, media);
      var u := MakeRoom(t, media);
      StageCore(t, u);
      CoreParts(u);
      SlotsAreBounded(u.q.notifiers, u.refs);
      ActiveWordBits(u.q.notifiers, order, media);
      OrIsUnion(w.dataRef, ActiveWord(u.q.notifiers, order, media));
      ReadyIsActive(u, media);
      DispatcherWakes.AppendRefs(u, media);
      assert s.refs.dataRef + {} == s.refs.dataRef;
    }
  }

  lemma AttachHolds(s: State, id: nat, keyMode: bool, keyRedirect: bool, order: seq<nat>, w: Words)
    requires Holds(w, s.refs)
    ensures Holds(StepWords(s, OpAttach(id, keyMode, keyRedirect), order, w),
                  Attach(s, id, keyMode, keyRedirect).refs)
  {
    hide BitsOf, UsableRef, StartPosition, LowestFree, PutBits, And, Or, Mask, SetBits, Low, Log2;
    LowIsMasked(w.readRef);
    UsableRefIsLowestFree(w.readRef);
    var slot := LowestFree(BitsOf(w.readRef), 0);
    LowestFreeSpec(BitsOf(w.readRef), 0);
    if id !in s.q.notifiers && slot < MAX_RECEIVER_SIZE {
      var (_, _, audioReady, videoReady) := StartPosition(s);
      Log2OfMask(slot);
      SetBitIsUnion(w.readRef, slot);
      LowMaskBit(slot);
      LowWords(w.readRef, Mask(slot));
      PutBitsPuts(w.dataRef, slot, Audio, audioReady);
      PutBitsPuts(PutBits(w.dataRef, slot, Audio, audioReady), slot, Video, videoReady);
    }
  }

  lemma DetachHolds(s: State, id: nat, order: seq<nat>, w: Words)
    requires Holds(w, s.refs) && (id in s.q.notifiers ==> s.q.notifiers[id].readIndex < MAX_RECEIVER_SIZE)
    ensures Holds(StepWords(s, OpDetach(id), order, w), Detach(s, id).refs)
  {
    hide BitsOf, PutBits, And, Not, Mask, SetBits, Bits, Low;
    if id in s.q.notifiers {
      var slot := s.q.notifiers[id].readIndex;
      PutBitsPuts(w.recvRef, slot, Audio, false);
      PutBitsPuts(PutBits(w.recvRef, slot, Audio, false), slot, Video, false);
      BothBits(s.refs.recvRef, slot);
      ClearBitIsDifference(w.readRef, slot);
      LowWords(w.readRef, Not(Mask(slot)));
    }
  }

  lemma BothBits(ref: set<nat>, slot: nat)
    ensures SetBits(SetBits(ref, Bits(slot, Audio), false), Bits(slot, Video), false) == ref - Bits(slot, AV)
  {
  }

  lemma ReadRefs(s: State, id: nat, mediaType: MediaType)
    ensures Read(s, id, mediaType).0.refs == s.refs
  {
  }

  /** The operations of a receiver that touch its own bits only. */
  predicate OwnBits(op: Op) {
    op.OpReady? || op.OpClearReadBit? || op.OpClearDataBit? || op.OpReceiverKeyMode?
  }

  lemma OwnBitsHold(s: State, op: Op, order: seq<nat>, w: Words)
    requires OwnBits(op) && Holds(w, s.refs) && SlotsBounded(s.q.notifiers)
    ensures Holds(StepWords(s, op, order, w), Step(s, op).0.refs)
  {
    hide BitsOf, PutBits, DataAvailable, Bits, Input, Attach, Detach, Flush, Read, Low;
    if op.id in s.q.notifiers {
      var n := s.q.notifiers[op.id];
      match op
      case OpReady(id, mediaType) =>
        PutBitsPuts(w.recvRef, n.readIndex, mediaType, true);
        PutBitsPuts(w.dataRef, n.readIndex, mediaType, DataAvailable(s.q, n, mediaType));
      case OpClearReadBit(id, mediaType) => PutBitsPuts(w.recvRef, n.readIndex, mediaType, false);
      case OpClearDataBit(id, mediaType) => PutBitsPuts(w.dataRef, n.readIndex, mediaType, false);
      case OpReceiverKeyMode(id, enable) => PutBitsPuts(w.dataRef, n.readIndex, Video, false);
    }
  }

  /** The operations that leave the three fields alone. */
  predicate KeepsBits(op: Op) {
    op.OpFlush? || op.OpRead? || op.OpReceiverRedirect? || op.OpKeyMode? || op.OpRedirect? || op.OpRapid?
  }

  lemma KeepsRefs(s: State, op: Op, order: seq<nat>, w: Words)
    requires KeepsBits(op)
    ensures Step(s, op).0.refs == s.refs && StepWords(s, op, order, w) == w
  {
    if op.OpRead? {
      ReadRefs(s, op.id, op.mediaType);
    }
    hide Read;
  }

  /** Every operation does to the words what its specification does to the sets they stand for. */
  lemma WordsFollowSets(s: State, op: Op, order: seq<nat>, w: Words)
    requires Core(s) && Holds(w, s.refs) && Lists(order, s.q.notifiers)
    ensures Holds(StepWords(s, op, order, w), Step(s, op).0.refs)
  {
    CoreParts(s);
    SlotsAreBounded(s.q.notifiers, s.refs);
    if OwnBits(op) {
      OwnBitsHold(s, op, order, w);
    } else if KeepsBits(op) {
      KeepsRefs(s, op, order, w);
      hide Step, StepWords, Holds;
    } else {
      hide Core, CoreSized, CoreQ, Before, SlotsOK, Attach, Detach, Input, InputWords, Holds, Lists;
      match op
      case OpInput(media) => InputHolds(s, media, order, w);
      case OpAttach(id, keyMode, keyRedirect) => AttachHolds(s, id, keyMode, keyRedirect, order, w);
      case OpDetach(id) => DetachHolds(s, id, order, w);
    }
  }

  // ---------------------------------------------------------------- runs

  /** For each operation an order in which its loop may visit the receivers attached at the time. */
  ghost predicate Visits(s: State, ops: seq<Op>, orders: seq<seq<nat>>)
    decreases ops
  {
    && |orders| == |ops|
    && (ops != [] ==> Lists(orders[0], s.q.notifiers) && Visits(Step(s, ops[0]).0, ops[1..], orders[1..]))
  }

  function RunWords(s: State, ops: seq<Op>, orders: seq<seq<nat>>, w: Words): Words
    requires |orders| == |ops|
    decreases ops
  {
    if ops == [] then w
    else RunWords(Step(s, ops[0]).0, ops[1..], orders[1..], StepWords(s, ops[0], orders[0], w))
  }

  lemma {:induction false} RunHolds(s: State, ops: seq<Op>, orders: seq<seq<nat>>, w: Words)
    requires Core(s) && Holds(w, s.refs) && Visits(s, ops, orders)
    ensures Holds(RunWords(s, ops, orders, w), Run(s, ops).refs)
    decreases ops
  {
    hide Core, Holds, Step, StepWords, Lists;
    if ops != [] {
      StepCore(s, ops[0]);
      WordsFollowSets(s, ops[0], orders[0], w);
      RunHolds(Step(s, ops[0]).0, ops[1..], orders[1..], StepWords(s, ops[0], orders[0], w));
    }
  }

  /**
   * Over every run, for every configuration and in whatever order the loops visit the receivers: the three machine
   * words, all zero at the start, stand for the three sets of the specification.
   */
  lemma WordsFollowRuns(cfg: Config, ops: seq<Op>, orders: seq<seq<nat>>)
    requires CoreConfig(cfg) && Visits(Initial(cfg), ops, orders)
    ensures Holds(RunWords(Initial(cfg), ops, orders, Words(0, 0, 0)), Run(Initial(cfg), ops).refs)
  {
    NoBits();
    InitialCore(cfg);
    RunHolds(Initial(cfg), ops, orders, Words(0, 0, 0));
  }
}
