/** Serial words for the two RF devices: stm32/app/src/rf/commands.c. */
module RfCommands {
  import opened Bits
  import opened Protocol

  const PHASE_UNIT_ADDRESS: u8 := 1
  const PHASE_COMMAND_MAX: u16 := 0x1fff
  const FULL_TURN_MILLIDEGREES: u32 := 360000

  /** The calibrated lookup: 256 nine-bit control words, OPT in bit 8 and D7:D0 below it. */
  type Calibration = words: seq<u16> | |words| == 256 && forall i :: 0 <= i < 256 ==> words[i] < 512
    witness seq(256, i => 0)

  /** The low `n` bits of `x`, least significant first. */
  function BitsLsb(x: nat, n: nat): (bits: seq<bool>)
    ensures |bits| == n
  {
    if n == 0 then [] else [x % 2 == 1] + BitsLsb(x / 2, n - 1)
  }

  /** The low `n` bits of `x`, most significant first: the order in which SPI sends them. */
  function BitsMsb(x: nat, n: nat): (bits: seq<bool>)
    ensures |bits| == n
  {
    if n == 0 then [] else BitsMsb(x / 2, n - 1) + [x % 2 == 1]
  }

  /** The number whose low `n` bits are those of `x` in the opposite order. */
  function Reversed(x: nat, n: nat): nat
  {
    if n == 0 then 0 else (if x % 2 == 1 then Pow2(n - 1) else 0) + Reversed(x / 2, n - 1)
  }

  lemma {:induction false} ReversedExtends(x: nat, i: nat)
    ensures Reversed(x, i + 1) == 2 * Reversed(x, i) + Shr(x, i) % 2
    decreases i
  {
    if i > 0 {
      ReversedExtends(x / 2, i - 1);
    }
  }

  /** `reverseBits`: shift the answer up and the word down, one bit a turn, in 16-bit registers. */
  method ReverseBits(word: u16, numBits: u8) returns (reversed: u16)
    ensures reversed == Reversed(word, numBits) % 0x1_0000
  {
    hide Or, And, Shr, Shl, Reversed;
    reversed := 0;
    var rest := word;
    assert Reversed(word, 0) == 0 && Shr(word, 0) == word by {
      StartOfReversal(word);
    }
    for i := 0 to numBits
      invariant reversed == Reversed(word, i) % 0x1_0000
      invariant rest == Shr(word, i) <= word
    {
      ShiftInLowBit(reversed, rest);
      ReversedExtends(word, i);
      ShrOnceMore(word, i);
      reversed := Or(Shl(reversed, 1), And(rest, 1)) % 0x1_0000;
      rest := Shr(rest, 1);
    }
  }

  lemma StartOfReversal(word: nat)
    ensures Reversed(word, 0) == 0 && Shr(word, 0) == word
  {
  }

  lemma ShiftInLowBit(reversed: nat, rest: nat)
    ensures Or(Shl(reversed, 1), And(rest, 1)) == 2 * reversed + rest % 2
  {
    hide Or, And, Shl, Pow2;
    Powers();
    AndMask(rest, 1);
    ShlIsMul(reversed, 1);
    OrDisjoint(reversed, 1, rest % 2);
  }

  lemma {:induction false} ShrOnceMore(x: nat, i: nat)
    ensures Shr(Shr(x, i), 1) == Shr(x, i + 1) <= Shr(x, i)
    decreases i
  {
    if i > 0 {
      ShrOnceMore(x / 2, i - 1);
    } else {
      assert Shr(x, 1) == Shr(x / 2, 0) == x / 2;
    }
  }

  lemma {:induction false} ReversedFits(x: nat, n: nat)
    ensures Reversed(x, n) < Pow2(n)
    decreases n
  {
    if n > 0 {
      ReversedFits(x / 2, n - 1);
    }
  }

  /** Joining bit strings is placing one number above another. */
  lemma {:induction false} BitsMsbJoin(hi: nat, lo: nat, m: nat, k: nat)
    requires lo < Pow2(k)
    ensures BitsMsb(hi * Pow2(k) + lo, m + k) == BitsMsb(hi, m) + BitsMsb(lo, k)
    decreases k
  {
    if k == 0 {
      assert hi * Pow2(0) == hi;
    } else {
      HalveField(hi, lo, k);
      BitsMsbJoin(hi, lo / 2, m, k - 1);
      assert BitsMsb(hi * Pow2(k) + lo, m + k)
          == BitsMsb(hi * Pow2(k - 1) + lo / 2, m + k - 1) + [lo % 2 == 1];
    }
  }

  lemma {:induction false} ReversedSwapsOrder(x: nat, n: nat)
    ensures BitsMsb(Reversed(x, n), n) == BitsLsb(x, n)
    decreases n
  {
    if n > 0 {
      ReversedFits(x / 2, n - 1);
      BitsMsbJoin(x % 2, Reversed(x / 2, n - 1), 1, n - 1);
      assert x % 2 * Pow2(n - 1) == if x % 2 == 1 then Pow2(n - 1) else 0;
      ReversedSwapsOrder(x / 2, n - 1);
      assert BitsMsb(x % 2, 1) == [x % 2 == 1];
    }
  }

  function Flip(bits: seq<bool>): (flipped: seq<bool>)
    ensures |flipped| == |bits|
    ensures forall i :: 0 <= i < |bits| ==> flipped[i] == bits[|bits| - 1 - i]
  {
    if bits == [] then [] else Flip(bits[1..]) + [bits[0]]
  }

  lemma {:induction false} MsbIsFlippedLsb(x: nat, n: nat)
    ensures BitsMsb(x, n) == Flip(BitsLsb(x, n))
    decreases n
  {
    if n > 0 {
      MsbIsFlippedLsb(x / 2, n - 1);
      assert BitsLsb(x, n)[1..] == BitsLsb(x / 2, n - 1);
    }
  }

  lemma {:induction false} BitsDetermine(x: nat, y: nat, n: nat)
    requires x < Pow2(n) && y < Pow2(n) && BitsMsb(x, n) == BitsMsb(y, n)
    ensures x == y
    decreases n
  {
    if n > 0 {
      var xs, ys := BitsMsb(x, n), BitsMsb(y, n);
      assert xs[..n - 1] == BitsMsb(x / 2, n - 1) && ys[..n - 1] == BitsMsb(y / 2, n - 1);
      assert xs[n - 1] == (x % 2 == 1) && ys[n - 1] == (y % 2 == 1);
      BitsDetermine(x / 2, y / 2, n - 1);
    }
  }

  /** Reversing `n` bits twice gives back every n-bit word. */
  lemma ReverseIsInvolution(x: nat, n: nat)
    requires x < Pow2(n)
    ensures Reversed(Reversed(x, n), n) == x
  {
    var r := Reversed(x, n);
    ReversedFits(x, n);
    ReversedFits(r, n);
    ReversedSwapsOrder(x, n);
    ReversedSwapsOrder(r, n);
    MsbIsFlippedLsb(r, n);
    MsbIsFlippedLsb(x, n);
    FlipTwice(BitsLsb(r, n));
    BitsDetermine(Reversed(r, n), x, n);
  }

  lemma FlipTwice(bits: seq<bool>)
    ensures Flip(Flip(bits)) == bits
  {
  }

  /** `MakePSCommand`: `[reversed data][OPT][reversed address]`, truncated to 16 bits. */
  function MakePhaseCommand(controlWord: u16, unitAddress: u8): (command: u16)
  {
    var opt := And(controlWord, 0x100) != 0;
    var data := Reversed(And(controlWord, 0xff), 8) % 0x1_0000;
    var address := Reversed(unitAddress, 4) % 0x100;
    Or(Or(Shl(And(data, 0xff), 5), Shl(if opt then 1 else 0, 4)), And(address, 0xf)) % 0x1_0000
  }

  /** `MakePSCommand` with the loop it calls. */
  method BuildPhaseCommand(controlWord: u16, unitAddress: u8) returns (command: u16)
    ensures command == MakePhaseCommand(controlWord, unitAddress)
  {
    hide Or, Shl, And, Reversed, Pow2;
    AndMask(controlWord, 8);
    Powers();
    var opt := And(controlWord, 0x100) != 0;
    var masked := And(controlWord, 0xff);
    var data := ReverseBits(masked, 8);
    var reversedAddress := ReverseBits(unitAddress, 4);
    ReversedFits(unitAddress, 4);
    var address := reversedAddress % 0x100;
    command := Or(Or(Shl(And(data, 0xff), 5), Shl(if opt then 1 else 0, 4)), And(address, 0xf)) % 0x1_0000;
  }

  /** The command word as arithmetic on its three fields. */
  lemma PhaseCommandFields(controlWord: u16, unitAddress: u8)
    requires controlWord < 512 && unitAddress < 16
    ensures MakePhaseCommand(controlWord, unitAddress)
         == Reversed(controlWord % 256, 8) * 32 + controlWord / 256 * 16 + Reversed(unitAddress, 4)
    ensures Reversed(controlWord % 256, 8) < 256 && Reversed(unitAddress, 4) < 16
  {
    hide And, Or, Shl, Reversed, Pow2;
    Powers();
    OptionBit(controlWord);
    AndMask(controlWord, 8);
    var data, address := Reversed(controlWord % 256, 8), Reversed(unitAddress, 4);
    ReversedFits(controlWord % 256, 8);
    ReversedFits(unitAddress, 4);
    AndMask(data, 8);
    AndMask(address, 4);
    var opt := if And(controlWord, 0x100) != 0 then 1 else 0;
    ShlIsMul(data, 5);
    ShlIsMul(opt, 4);
    OrDisjoint(data, 5, opt * 16);
    OrDisjoint(data * 2 + opt, 4, address);
  }

  lemma OptionBit(controlWord: u16)
    requires controlWord < 512
    ensures And(controlWord, 0x100) == controlWord / 256 * 256
  {
    Powers();
    AndFields(controlWord / 256, controlWord % 256, 1, 0, 8);
    AndZero(controlWord % 256);
  }

  /**
   Sent most significant bit first, the thirteen bits of the command are D0..D7, OPT, A0..A3:
   the order the PE44820 shifts them in.
   */
  lemma PhaseCommandOnTheWire(controlWord: u16, unitAddress: u8)
    requires controlWord < 512 && unitAddress < 16
    ensures MakePhaseCommand(controlWord, unitAddress) <= PHASE_COMMAND_MAX
    ensures BitsMsb(MakePhaseCommand(controlWord, unitAddress), 13)
         == BitsLsb(controlWord, 8) + [controlWord / 256 == 1] + BitsLsb(unitAddress, 4)
  {
    hide MakePhaseCommand, Reversed, Pow2, BitsLsb, BitsMsb;
    Powers();
    PhaseCommandFields(controlWord, unitAddress);
    ThreeFieldsOnTheWire(Reversed(controlWord % 256, 8), controlWord / 256, Reversed(unitAddress, 4));
    ReversedSwapsOrder(controlWord % 256, 8);
    ReversedSwapsOrder(unitAddress, 4);
    LowBitsOnly(controlWord, 8);
  }

  lemma ThreeFieldsOnTheWire(data: nat, opt: nat, address: nat)
    requires data < 256 && opt < 2 && address < 16
    ensures BitsMsb(data * 32 + opt * 16 + address, 13) == BitsMsb(data, 8) + [opt == 1] + BitsMsb(address, 4)
  {
    assert BitsMsb(opt, 1) == [opt == 1];
    hide Pow2, BitsMsb;
    Powers();
    BitsMsbJoin(data * 2 + opt, address, 9, 4);
    BitsMsbJoin(data, opt, 8, 1);
  }

  lemma {:induction false} LowBitsOnly(x: nat, n: nat)
    ensures BitsLsb(x % Pow2(n), n) == BitsLsb(x, n)
    decreases n
  {
    if n > 0 {
      ModDouble(x, Pow2(n - 1));
      LowBitsOnly(x / 2, n - 1);
    }
  }

  /** No two (word, address) pairs share a command. */
  lemma PhaseCommandIsInjective(w1: u16, a1: u8, w2: u16, a2: u8)
    requires w1 < 512 && w2 < 512 && a1 < 16 && a2 < 16
    requires MakePhaseCommand(w1, a1) == MakePhaseCommand(w2, a2)
    ensures w1 == w2 && a1 == a2
  {
    hide MakePhaseCommand, Reversed, Pow2;
    Powers();
    PhaseCommandFields(w1, a1);
    PhaseCommandFields(w2, a2);
    ReverseIsInvolution(w1 % 256, 8);
    ReverseIsInvolution(w2 % 256, 8);
    ReverseIsInvolution(a1, 4);
    ReverseIsInvolution(a2, 4);
  }

  /** `MakeVGACommand`: `None` is its error return. */
  function MakeVgaCommand(attenuationDb: u8): Option<u8>
  {
    if attenuationDb > VGA_MAX_ATTENUATION_DB then None else Some(Shl(attenuationDb, 2) % 0x100)
  }

  /** The F0480 byte carries the attenuation in D6:D2, so every setting has its own byte. */
  lemma VgaCommandFields(attenuationDb: u8)
    ensures MakeVgaCommand(attenuationDb)
         == if attenuationDb <= VGA_MAX_ATTENUATION_DB then Some(4 * attenuationDb) else None
  {
    ShlIsMul(attenuationDb, 2);
    Powers();
  }

  function PhaseStateFromMillidegrees(requested: u32): Option<u8>
  {
    if requested > FULL_TURN_MILLIDEGREES then None
    else
      AndMask((requested * 256 + 180000) / 360000, 8);
      Powers();
      Some(And((requested * 256 + 180000) / 360000, 0xff))
  }

  /** The distance, in 1/256 millidegrees, from a requested angle to state `s` taken `turns` turns on. */
  function AngleError(requested: int, s: int, turns: int): nat
  {
    var d := 256 * requested - 360000 * (s + 256 * turns);
    if d < 0 then -d else d
  }

  /** The chosen state is within half a step of the request, and no state is nearer on the circle. */
  lemma PhaseStateIsNearest(requested: u32)
    requires requested <= FULL_TURN_MILLIDEGREES
    ensures PhaseStateFromMillidegrees(requested).Some?
    ensures var s := PhaseStateFromMillidegrees(requested).value;
      exists turns: nat :: turns <= 1 && AngleError(requested, s, turns) <= 180000
        && forall other: u8, t: int :: AngleError(requested, s, turns) <= AngleError(requested, other, t)
  {
    hide And, Pow2;
    Powers();
    var step := (requested * 256 + 180000) / 360000;
    AndMask(step, 8);
    var s, turns := step % 256, step / 256;
    assert turns <= 1 && step == s + 256 * turns;
    forall other: u8, t: int
      ensures AngleError(requested, s, turns) <= AngleError(requested, other, t)
    {
      NoStepIsNearer(requested, step, other + 256 * t);
    }
    assert AngleError(requested, s, turns) <= 180000;
  }

  lemma NoStepIsNearer(requested: nat, step: nat, other: int)
    requires step == (requested * 256 + 180000) / 360000
    ensures AngleError(requested, step, 0) <= AngleError(requested, other, 0)
  {
    if other > step {
      assert 360000 * other >= 360000 * step + 360000;
    } else if other < step {
      assert 360000 * other <= 360000 * step - 360000;
    }
  }

  /** The two angles start-up asks for: 0 degrees is state 0 and 205.3 degrees is state 146. */
  lemma StartupAngles()
    ensures PhaseStateFromMillidegrees(0) == Some(0)
    ensures PhaseStateFromMillidegrees(205300) == Some(146)
  {
    hide And, Pow2;
    Powers();
    AndMask((0 * 256 + 180000) / 360000, 8);
    AndMask((205300 * 256 + 180000) / 360000, 8);
  }
}
