/**
 The inverse tables of the ETC1 encoder: for every modifier and every colour, the quantised
 colour that decodes closest to it. The intensity modifiers are a parameter, so what is
 proved holds for every such table.
 */
module Etc1Tables {

  // ---- the machine operators on unsigned words, where nothing is shifted out ----

  function Pow2(k: nat): nat { if k == 0 then 1 else 2 * Pow2(k - 1) }

  function ShiftLeft(a: nat, k: nat): nat { a * Pow2(k) }

  function ShiftRight(a: nat, k: nat): nat
  {
    if k == 0 then a else ShiftRight(a / 2, k - 1)
  }

  function BitOr(a: nat, b: nat): nat
    decreases a + b
  {
    if a == 0 && b == 0 then 0
    else (if a % 2 == 1 || b % 2 == 1 then 1 else 0) + 2 * BitOr(a / 2, b / 2)
  }

  lemma {:induction false} OrZero(b: nat)
    ensures BitOr(0, b) == b
  {
    if b != 0 {
      OrZero(b / 2);
    }
  }

  /** Or-ing a word below 2^k into one shifted left by k adds the two. */
  lemma {:induction false} OrOfDisjoint(a: nat, b: nat, k: nat)
    requires a < Pow2(k)
    ensures BitOr(a, ShiftLeft(b, k)) == a + ShiftLeft(b, k)
  {
    if k == 0 {
      OrZero(b);
    } else {
      var half := Pow2(k - 1);
      assert b * (2 * half) == 2 * (b * half);
      OrOfDisjoint(a / 2, b, k - 1);
      assert ShiftLeft(b, k) / 2 == ShiftLeft(b, k - 1);
    }
  }

  lemma {:induction false} OrCommutes(a: nat, b: nat)
    ensures BitOr(a, b) == BitOr(b, a)
    decreases a + b
  {
    if a != 0 || b != 0 {
      OrCommutes(a / 2, b / 2);
    }
  }

  // ---- decoding and the search ----

  /** Modifier of an intensity (below 8) and a selector (below 4). */
  type Modifiers = (nat, nat) -> int

  function Limit(diff: nat): nat { if diff != 0 then 32 else 16 }

  function DecodeValue(modifiers: Modifiers, diff: nat, inten: nat, selector: nat, packed: nat): nat {
    var c := if diff != 0 then BitOr(ShiftRight(packed, 2), ShiftLeft(packed, 3))
             else BitOr(packed, ShiftLeft(packed, 4));
    var modified := c + modifiers(inten, selector);
    if modified < 0 then 0 else if modified > 255 then 255 else modified
  }

  function Abs(x: int): nat { if x < 0 then -x else x }

  function Distance(modifiers: Modifiers, diff: nat, inten: nat, selector: nat, color: nat, packed: nat): nat {
    Abs(DecodeValue(modifiers, diff, inten, selector, packed) - color)
  }

  /** packed decodes closest to color, at the distance error, and is the smallest that does. */
  ghost predicate Closest(modifiers: Modifiers, diff: nat, inten: nat, selector: nat, color: nat, packed: nat,
                          error: nat) {
    && packed < Limit(diff)
    && error == Distance(modifiers, diff, inten, selector, color, packed)
    && (forall q: nat :: q < Limit(diff) ==> error <= Distance(modifiers, diff, inten, selector, color, q))
    && (forall q: nat :: q < packed ==> error < Distance(modifiers, diff, inten, selector, color, q))
  }

  /** Replicating the high bits into the low ones is multiplication and addition. */
  lemma DecodeIsExpansion(modifiers: Modifiers, diff: nat, inten: nat, selector: nat, packed: nat)
    requires packed < Limit(diff)
    ensures var c := (if diff != 0 then packed * 8 + packed / 4 else packed * 17) + modifiers(inten, selector);
            DecodeValue(modifiers, diff, inten, selector, packed) == if c < 0 then 0 else if c > 255 then 255 else c
  {
    assert Pow2(2) == 4 && Pow2(3) == 8 && Pow2(4) == 2 * Pow2(3);
    assert ShiftRight(packed, 2) == ShiftRight(packed / 2, 1) == ShiftRight(packed / 4, 0);
    if diff != 0 {
      OrOfDisjoint(ShiftRight(packed, 2), packed, 3);
    } else {
      OrOfDisjoint(packed, packed, 4);
    }
  }

  /** How far an expanded and clamped value is from a colour. */
  function Gap(value: int, color: nat): nat {
    var v := if value < 0 then 0 else if value > 255 then 255 else value;
    if v < color then color - v else v - color
  }

  function Gap5(q: nat, modifier: int, color: nat): nat { Gap(8 * q + q / 4 + modifier, color) }

  function Gap4(q: nat, modifier: int, color: nat): nat { Gap(17 * q + modifier, color) }

  /** Of the five-bit values packed comes nearest, at the distance error, and no smaller one does. */
  ghost predicate Nearest5(modifier: int, color: nat, packed: nat, error: nat) {
    && packed < 32 && error == Gap5(packed, modifier, color)
    && (forall q: nat :: q < 32 ==> error <= Gap5(q, modifier, color))
    && (forall q: nat :: q < packed ==> error < Gap5(q, modifier, color))
  }

  /** Likewise of the four-bit values. */
  ghost predicate Nearest4(modifier: int, color: nat, packed: nat, error: nat) {
    && packed < 16 && error == Gap4(packed, modifier, color)
    && (forall q: nat :: q < 16 ==> error <= Gap4(q, modifier, color))
    && (forall q: nat :: q < packed ==> error < Gap4(q, modifier, color))
  }

  lemma ClosestIsNearest(modifiers: Modifiers, diff: nat, inten: nat, selector: nat, color: nat, packed: nat,
                         error: nat)
    requires Closest(modifiers, diff, inten, selector, color, packed, error)
    ensures diff != 0 ==> Nearest5(modifiers(inten, selector), color, packed, error)
    ensures diff == 0 ==> Nearest4(modifiers(inten, selector), color, packed, error)
  {
    hide DecodeValue;
    var m := modifiers(inten, selector);
    forall q: nat | q < (if diff != 0 then 32 else 16)
      ensures Distance(modifiers, diff, inten, selector, color, q)
              == if diff != 0 then Gap5(q, m, color) else Gap4(q, m, color)
    {
      DecodeIsExpansion(modifiers, diff, inten, selector, q);
    }
  }

  /** Without a modifier a colour that is itself an expanded value is met exactly. */
  lemma ExactColours(q: nat, packed: nat, error: nat)
    ensures q < 32 && Nearest5(0, 8 * q + q / 4, packed, error) ==> packed == q && error == 0
    ensures q < 16 && Nearest4(0, 17 * q, packed, error) ==> packed == q && error == 0
  {
    assert q < 32 ==> Gap5(q, 0, 8 * q + q / 4) == 0;
    assert q < 16 ==> Gap4(q, 0, 17 * q) == 0;
  }

  method FindClosest(modifiers: Modifiers, diff: nat, inten: nat, selector: nat, color: nat)
    returns (bestPacked: nat, bestError: nat)
    requires color < 256
    ensures Closest(modifiers, diff, inten, selector, color, bestPacked, bestError)
    ensures bestError < 256
    ensures diff != 0 ==> Nearest5(modifiers(inten, selector), color, bestPacked, bestError)
    ensures diff == 0 ==> Nearest4(modifiers(inten, selector), color, bestPacked, bestError)
  {
    hide Nearest4, Nearest5;
    bestError := 0xFFFF_FFFF;
    bestPacked := 0;
    var packed := 0;
    while packed < Limit(diff)
      invariant packed <= Limit(diff)
      invariant packed == 0 ==> bestError == 0xFFFF_FFFF
      invariant packed > 0 ==> bestPacked < packed
      invariant packed > 0 ==> bestError == Distance(modifiers, diff, inten, selector, color, bestPacked)
      invariant forall q: nat :: q < packed ==> bestError <= Distance(modifiers, diff, inten, selector, color, q)
      invariant forall q: nat :: q < bestPacked ==> bestError < Distance(modifiers, diff, inten, selector, color, q)
    {
      var v := DecodeValue(modifiers, diff, inten, selector, packed);
      var error := Abs(v - color);
      if error < bestError {
        bestError := error;
        bestPacked := packed;
        if bestError == 0 {
          break;
        }
      }
      packed := packed + 1;
    }
    ClosestIsNearest(modifiers, diff, inten, selector, color, bestPacked, bestError);
  }

  // ---- the table ----

  const ENTRIES: nat := 2 * 8 * 4 * 256

  function Slot(diff: nat, inten: nat, selector: nat, color: nat): nat {
    (diff + inten * 2 + selector * 16) * 256 + color
  }

  /** How many entries the loops fill before the one in slot k. */
  function Turn(k: nat): nat {
    ((k / 256 % 2 * 8 + k / 512 % 8) * 4 + k / 4096) * 256 + k % 256
  }

  ghost predicate Valid(diff: nat, inten: nat, selector: nat, color: nat) {
    diff < 2 && inten < 8 && selector < 4 && color < 256
  }

  lemma SlotFields(diff: nat, inten: nat, selector: nat, color: nat)
    requires Valid(diff, inten, selector, color)
    ensures var k := Slot(diff, inten, selector, color);
            && k < ENTRIES && k / 256 % 2 == diff && k / 512 % 8 == inten && k / 4096 == selector && k % 256 == color
            && Turn(k) == ((diff * 8 + inten) * 4 + selector) * 256 + color
  {
  }

  lemma Digits(diff: nat, inten: nat, selector: nat, color: nat)
    requires Valid(diff, inten, selector, color)
    ensures var t := ((diff * 8 + inten) * 4 + selector) * 256 + color;
            && t % 256 == color && t / 256 % 4 == selector && t / 1024 % 8 == inten && t / 8192 == diff
  {
  }

  lemma FieldsMakeSlot(k: nat)
    requires k < ENTRIES
    ensures Valid(k / 256 % 2, k / 512 % 8, k / 4096, k % 256)
    ensures Slot(k / 256 % 2, k / 512 % 8, k / 4096, k % 256) == k
  {
    var q := k / 256;
    assert q / 2 == k / 512 && q / 16 == k / 4096;
    assert q == q % 2 + q / 2 % 8 * 2 + q / 16 * 16;
  }

  lemma TurnIsUnique(k: nat, j: nat)
    requires k < ENTRIES && j < ENTRIES && Turn(k) == Turn(j)
    ensures k == j
  {
    hide Slot;
    FieldsMakeSlot(k);
    FieldsMakeSlot(j);
    Digits(k / 256 % 2, k / 512 % 8, k / 4096, k % 256);
    Digits(j / 256 % 2, j / 512 % 8, j / 4096, j % 256);
  }

  /** What slot k holds: the closest colour in the low 8 bits, its distance above them. */
  ghost predicate IsEntry(modifiers: Modifiers, k: nat, word: int) {
    && 0 <= word < 0x1_0000
    && Closest(modifiers, k / 256 % 2, k / 512 % 8, k / 4096, k % 256, word % 256, word / 256)
  }

  /** Progress of the loops: the first n turns are filled, and nothing has been written twice. */
  ghost predicate Filled(modifiers: Modifiers, words: seq<int>, writes: seq<nat>, n: nat) {
    && |words| >= ENTRIES && |writes| == ENTRIES
    && (forall k: nat :: k < ENTRIES && Turn(k) < n ==> IsEntry(modifiers, k, words[k]))
    && (forall k: nat :: k < ENTRIES ==> writes[k] == if Turn(k) < n then 1 else 0)
  }

  /** The word for one turn, and where it goes. */
  lemma FillsNext(modifiers: Modifiers, words: seq<int>, writes: seq<nat>, diff: nat, inten: nat, selector: nat,
                  color: nat, packed: nat, error: nat)
    requires Valid(diff, inten, selector, color) && error < 256
    requires Closest(modifiers, diff, inten, selector, color, packed, error)
    requires Filled(modifiers, words, writes, ((diff * 8 + inten) * 4 + selector) * 256 + color)
    ensures |writes| == ENTRIES
    ensures var k := Slot(diff, inten, selector, color);
            && k < ENTRIES
            && Filled(modifiers, words[k := BitOr(packed, ShiftLeft(error, 8))], writes[k := writes[k] + 1],
                      ((diff * 8 + inten) * 4 + selector) * 256 + color + 1)
  {
    hide Slot, Turn, Distance;
    var k, n := Slot(diff, inten, selector, color), ((diff * 8 + inten) * 4 + selector) * 256 + color;
    SlotFields(diff, inten, selector, color);
    PackedWord(packed, error);
    forall j: nat | j < ENTRIES && Turn(j) < n + 1 ensures j == k || Turn(j) < n {
      if Turn(j) == n {
        TurnIsUnique(j, k);
      }
    }
  }

  lemma NothingFilled(modifiers: Modifiers, words: seq<int>, writes: seq<nat>)
    requires |words| >= ENTRIES && writes == seq(ENTRIES, _ => 0)
    ensures Filled(modifiers, words, writes, 0)
  {
    hide IsEntry;
  }

  lemma AllFilled(modifiers: Modifiers, words: seq<int>, writes: seq<nat>)
    requires Filled(modifiers, words, writes, ENTRIES)
    ensures forall k: nat :: k < ENTRIES ==> IsEntry(modifiers, k, words[k])
    ensures writes == seq(ENTRIES, _ => 1)
  {
    hide Turn, IsEntry;
    forall k: nat | k < ENTRIES ensures Turn(k) < ENTRIES {
      FieldsMakeSlot(k);
      SlotFields(k / 256 % 2, k / 512 % 8, k / 4096, k % 256);
    }
  }

  lemma BytePower()
    ensures Pow2(8) == 256
  {
    assert Pow2(4) == 16;
    assert Pow2(6) == 4 * Pow2(4) && Pow2(8) == 4 * Pow2(6);
  }

  lemma PackedWord(packed: nat, error: nat)
    requires packed < 256 && error < 256
    ensures var word := BitOr(packed, ShiftLeft(error, 8));
            word < 0x1_0000 && word % 256 == packed && word / 256 == error
  {
    hide BitOr, Pow2;
    BytePower();
    OrOfDisjoint(packed, error, 8);
  }

  const BLOCK_CONFIG_0_255: nat := 2 * 33
  const BLOCK_CONFIG_1_TO_254: nat := 254 * 11

  /** Bytes of the buffer: the entries as 32-bit floats, then two tables of 32-bit words. */
  function GetEtc1TablesSize(): nat {
    4 * 2 * 8 * 4 * 256 + 4 * (2 * 33 + 254 * 11)
  }

  /**
   Fills the buffer, seen as 32-bit words. Every entry is below 2^24, so the float that holds
   it in the original is exact. writes counts the stores to each entry.
   */
  method CreateFilledEtc1Tables(modifiers: Modifiers, config0: seq<int>, config1: seq<int>)
    returns (data: array<int>, ghost writes: seq<nat>)
    requires |config0| == BLOCK_CONFIG_0_255 && |config1| == BLOCK_CONFIG_1_TO_254
    ensures fresh(data) && 4 * data.Length == GetEtc1TablesSize() == 76976
    ensures forall k: nat :: k < 16384 ==> IsEntry(modifiers, k, data[k]) && 0 <= data[k] < 0x100_0000
    ensures forall k: nat :: k < 16384 ==>
              var modifier, color := modifiers(k / 512 % 8, k / 4096), k % 256;
              && (k / 256 % 2 == 1 ==> Nearest5(modifier, color, data[k] % 256, data[k] / 256))
              && (k / 256 % 2 == 0 ==> Nearest4(modifier, color, data[k] % 256, data[k] / 256))
    ensures writes == seq(16384, _ => 1)
    ensures data[16384..] == config0 + config1
  {
    hide Filled, Closest, Turn, Nearest5, Nearest4;
    data := new int[ENTRIES + BLOCK_CONFIG_0_255 + BLOCK_CONFIG_1_TO_254];
    writes := seq(ENTRIES, _ => 0);
    NothingFilled(modifiers, data[..], writes);
    for diff := 0 to 2
      invariant Filled(modifiers, data[..], writes, diff * 8192)
    {
      for inten := 0 to 8
        invariant Filled(modifiers, data[..], writes, (diff * 8 + inten) * 1024)
      {
        for selector := 0 to 4
          invariant Filled(modifiers, data[..], writes, ((diff * 8 + inten) * 4 + selector) * 256)
        {
          var tableIndex := diff + inten * 2 + selector * 16;
          for color := 0 to 256
            invariant Filled(modifiers, data[..], writes, ((diff * 8 + inten) * 4 + selector) * 256 + color)
          {
            var packed, error := FindClosest(modifiers, diff, inten, selector, color);
            FillsNext(modifiers, data[..], writes, diff, inten, selector, color, packed, error);
            var k := tableIndex * 256 + color;
            ghost var words := data[..];
            data[k] := BitOr(packed, ShiftLeft(error, 8));
            writes := writes[k := writes[k] + 1];
            assert data[..] == words[k := BitOr(packed, ShiftLeft(error, 8))];
          }
        }
      }
    }
    AllFilled(modifiers, data[..], writes);
    assert forall k: nat :: k < ENTRIES ==> data[k] == data[..][k];
    forall i | 0 <= i < BLOCK_CONFIG_0_255 {
      data[ENTRIES + i] := config0[i];
    }
    forall i | 0 <= i < BLOCK_CONFIG_1_TO_254 {
      data[ENTRIES + BLOCK_CONFIG_0_255 + i] := config1[i];
    }
    forall k: nat | k < ENTRIES
      ensures k / 256 % 2 != 0 ==> Nearest5(modifiers(k / 512 % 8, k / 4096), k % 256, data[k] % 256, data[k] / 256)
      ensures k / 256 % 2 == 0 ==> Nearest4(modifiers(k / 512 % 8, k / 4096), k % 256, data[k] % 256, data[k] / 256)
    {
      ClosestIsNearest(modifiers, k / 256 % 2, k / 512 % 8, k / 4096, k % 256, data[k] % 256, data[k] / 256);
    }
  }
}
