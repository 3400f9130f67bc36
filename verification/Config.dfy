/** The configuration that fits a 64 bits word, so it can be the constant parameter of a generic type. */
module Config {
  import opened Wrappers
  import opened Bits

  // ---------- ranges of bits ----------

  /** The width of the word, in bits. */
  const WORD: nat := 64

  /** From bit number `start` to bit number `end`, both included. */
  datatype Interval = Interval(start: nat, end: nat)

  type Range = bits: Interval | bits.start <= bits.end < WORD && bits.end - bits.start + 1 < WORD witness Interval(0, 0)

  function Length(bits: Range): nat {
    bits.end - bits.start + 1
  }

  predicate Disjoint(a: Range, b: Range) {
    a.end < b.start || b.end < a.start
  }

  function Mask(bits: Range): nat
  {
    ShiftedOne(Length(bits));
    ShiftLeft(1, Length(bits)) - 1
  }

  function GetBits(config: nat, bits: Range): nat
  {
    And(ShiftRight(config, bits.start), Mask(bits))
  }

  predicate Fits(bits: Range, value: nat) {
    value < Pow2(Length(bits))
  }

  /** The word with the bits of the range replaced; nothing when the value does not fit: the program panics. */
  function SetBits(config: nat, bits: Range, value: nat): Option<nat>
  {
    if value > Mask(bits) then None
    else Some(Or(And(config, Not(WORD, ShiftLeft(Mask(bits), bits.start))), ShiftLeft(value, bits.start)))
  }

  lemma BitOfGet(config: nat, bits: Range, i: nat)
    ensures Bit(GetBits(config, bits), i) <==> i < Length(bits) && Bit(config, bits.start + i)
  {
    ShiftedOne(Length(bits));
    BitOfMask(Length(bits), i);
    BitOfShiftRight(config, bits.start, i);
    BitOfAnd(ShiftRight(config, bits.start), Mask(bits), i);
  }

  lemma GetFits(config: nat, bits: Range)
    ensures Fits(bits, GetBits(config, bits))
  {
    forall i: nat | Length(bits) <= i ensures !Bit(GetBits(config, bits), i) {
      BitOfGet(config, bits, i);
    }
    FitsItsBits(GetBits(config, bits), Length(bits));
  }

  /** Setting a range of bits sets them and no other. */
  lemma BitOfSet(config: nat, bits: Range, value: nat, i: nat)
    requires Fits(bits, value) && config < Pow2(WORD)
    ensures SetBits(config, bits, value).Some?
    ensures Bit(SetBits(config, bits, value).value, i)
       <==> if bits.start <= i <= bits.end then Bit(value, i - bits.start) else Bit(config, i)
  {
    var mask := Mask(bits);
    var hole := Not(WORD, ShiftLeft(mask, bits.start));
    ShiftedOne(Length(bits));
    BitOfOr(And(config, hole), ShiftLeft(value, bits.start), i);
    BitOfAnd(config, hole, i);
    BitOfNot(WORD, ShiftLeft(mask, bits.start), i);
    BitOfShiftLeft(mask, bits.start, i);
    BitOfShiftLeft(value, bits.start, i);
    if bits.start <= i {
      BitOfMask(Length(bits), i - bits.start);
    }
    if bits.end < i {
      BitsOfFitting(value, Length(bits), i - bits.start);
    }
    if WORD <= i {
      BitsOfFitting(config, WORD, i);
    }
  }

  /** A value is set, within the word, exactly when it fits. */
  lemma SetsWhatFits(config: nat, bits: Range, value: nat)
    requires config < Pow2(WORD)
    ensures SetBits(config, bits, value).Some? <==> Fits(bits, value)
    ensures Fits(bits, value) ==> SetBits(config, bits, value).value < Pow2(WORD)
  {
    ShiftedOne(Length(bits));
    if Fits(bits, value) {
      forall i: nat | WORD <= i ensures !Bit(SetBits(config, bits, value).value, i) {
        BitOfSet(config, bits, value, i);
        BitsOfFitting(config, WORD, i);
      }
      FitsItsBits(SetBits(config, bits, value).value, WORD);
    }
  }

  /** What was set is what is got. */
  lemma GetsWhatWasSet(config: nat, bits: Range, value: nat)
    requires Fits(bits, value) && config < Pow2(WORD)
    ensures SetBits(config, bits, value).Some? && GetBits(SetBits(config, bits, value).value, bits) == value
  {
    SetsWhatFits(config, bits, value);
    var config' := SetBits(config, bits, value).value;
    forall i: nat ensures Bit(GetBits(config', bits), i) <==> Bit(value, i) {
      BitOfGet(config', bits, i);
      BitOfSet(config, bits, value, bits.start + i);
      if Length(bits) <= i {
        BitsOfFitting(value, Length(bits), i);
      }
    }
    SameBits(GetBits(config', bits), value);
  }

  /** What is elsewhere is not touched. */
  lemma SetsNothingElse(config: nat, bits: Range, value: nat, other: Range)
    requires Disjoint(bits, other)
    requires Fits(bits, value) && config < Pow2(WORD)
    ensures SetBits(config, bits, value).Some?
    ensures GetBits(SetBits(config, bits, value).value, other) == GetBits(config, other)
  {
    SetsWhatFits(config, bits, value);
    var config' := SetBits(config, bits, value).value;
    forall i: nat ensures Bit(GetBits(config', other), i) <==> Bit(GetBits(config, other), i) {
      BitOfGet(config', other, i);
      BitOfGet(config, other, i);
      BitOfSet(config, bits, value, other.start + i);
    }
    SameBits(GetBits(config', other), GetBits(config, other));
  }

  // ---------- powers of 2 ----------

  type U8 = x: int | 0 <= x < 0x100
  type U16 = x: int | 0 <= x < 0x1_0000
  type U32 = x: int | 0 <= x < 0x1_0000_0000

  function ILog2(x: nat): nat
    requires x > 0
  {
    if x == 1 then 0 else 1 + ILog2(x / 2)
  }

  predicate IsPowerOfTwo(x: nat) {
    x > 0 && x == Pow2(ILog2(x))
  }

  lemma {:induction false} ILog2OfPow2(n: nat)
    ensures ILog2(Pow2(n)) == n
  {
    if n > 0 {
      ILog2OfPow2(n - 1);
    }
  }

  lemma {:induction false} PowersGrow(m: nat, n: nat)
    requires m <= n
    ensures Pow2(m) <= Pow2(n)
  {
    if m < n {
      PowersGrow(m, n - 1);
    }
  }

  lemma {:induction false} ILog2IsBelow(x: nat, n: nat)
    requires 0 < x < Pow2(n)
    ensures ILog2(x) < n
  {
    if x > 1 {
      ILog2IsBelow(x / 2, n - 1);
    }
  }

  lemma WordsOfPow2()
    ensures Pow2(2) == 4 && Pow2(3) == 8 && Pow2(4) == 16 && Pow2(5) == 32 && Pow2(8) == 0x100
    ensures Pow2(16) == 0x1_0000 && Pow2(32) == 0x1_0000_0000
  {
    var p4 := Pow2(4);
    assert p4 == 2 * Pow2(3) == 4 * Pow2(2) == 8 * Pow2(1) == 16 * Pow2(0);
    assert Pow2(8) == 2 * Pow2(7) == 4 * Pow2(6) == 8 * Pow2(5) == 16 * p4;
    assert Pow2(12) == 2 * Pow2(11) == 4 * Pow2(10) == 8 * Pow2(9) == 16 * Pow2(8);
    assert Pow2(16) == 2 * Pow2(15) == 4 * Pow2(14) == 8 * Pow2(13) == 16 * Pow2(12);
    assert Pow2(20) == 2 * Pow2(19) == 4 * Pow2(18) == 8 * Pow2(17) == 16 * Pow2(16);
    assert Pow2(24) == 2 * Pow2(23) == 4 * Pow2(22) == 8 * Pow2(21) == 16 * Pow2(20);
    assert Pow2(28) == 2 * Pow2(27) == 4 * Pow2(26) == 8 * Pow2(25) == 16 * Pow2(24);
    assert Pow2(32) == 2 * Pow2(31) == 4 * Pow2(30) == 8 * Pow2(29) == 16 * Pow2(28);
  }

  /** The value whose logarithm is in the given bits. */
  function GetPowerOf2(config: nat, bits: Range): nat
  {
    ShiftLeft(1, GetBits(config, bits))
  }

  /** The word with the logarithm of the value in the given bits; nothing when it has none: the program panics. */
  function SetPowerOf2(config: nat, bits: Range, value: nat): Option<nat>
  {
    if IsPowerOfTwo(value) then SetBits(config, bits, ILog2(value)) else None
  }

  /** What is got is always a power of 2, the one whose logarithm is there. */
  lemma GetsAPowerOf2(config: nat, bits: Range)
    ensures IsPowerOfTwo(GetPowerOf2(config, bits)) && ILog2(GetPowerOf2(config, bits)) == GetBits(config, bits)
    ensures GetPowerOf2(config, bits) < Pow2(Pow2(Length(bits)))
  {
    ShiftedOne(GetBits(config, bits));
    ILog2OfPow2(GetBits(config, bits));
    GetFits(config, bits);
    PowersGrow(GetBits(config, bits) + 1, Pow2(Length(bits)));
  }

  lemma GetsThePowerOf2(config: nat, bits: Range, value: nat)
    requires IsPowerOfTwo(value) && GetBits(config, bits) == ILog2(value)
    ensures GetPowerOf2(config, bits) == value
  {
    ShiftedOne(ILog2(value));
  }

  // ---------- nested representations ----------

  /** A field or-ed over those below it can be told apart from them. */
  lemma SplitsOr(low: nat, high: nat, n: nat)
    requires low < Pow2(n)
    ensures And(Or(low, ShiftLeft(high, n)), Pow2(n) - 1) == low
    ensures ShiftRight(Or(low, ShiftLeft(high, n)), n) == high
  {
    var word := Or(low, ShiftLeft(high, n));
    forall i: nat
      ensures Bit(And(word, Pow2(n) - 1), i) <==> Bit(low, i)
      ensures Bit(ShiftRight(word, n), i) <==> Bit(high, i)
    {
      BitOfAnd(word, Pow2(n) - 1, i);
      BitOfMask(n, i);
      BitOfOr(low, ShiftLeft(high, n), i);
      BitOfShiftLeft(high, n, i);
      BitOfShiftRight(word, n, i);
      BitOfOr(low, ShiftLeft(high, n), n + i);
      BitOfShiftLeft(high, n, n + i);
      BitsOfFitting(low, n, n + i);
      if n <= i {
        BitsOfFitting(low, n, i);
      }
    }
    SameBits(And(word, Pow2(n) - 1), low);
    SameBits(ShiftRight(word, n), high);
  }

  /** And splitting it so loses nothing. */
  lemma JoinsSplit(word: nat, n: nat)
    ensures And(word, Pow2(n) - 1) < Pow2(n)
    ensures Or(And(word, Pow2(n) - 1), ShiftLeft(ShiftRight(word, n), n)) == word
  {
    var (low, high) := (And(word, Pow2(n) - 1), ShiftRight(word, n));
    forall i: nat
      ensures n <= i ==> !Bit(low, i)
      ensures Bit(Or(low, ShiftLeft(high, n)), i) <==> Bit(word, i)
    {
      BitOfAnd(word, Pow2(n) - 1, i);
      BitOfMask(n, i);
      BitOfOr(low, ShiftLeft(high, n), i);
      BitOfShiftLeft(high, n, i);
      if n <= i {
        BitOfShiftRight(word, n, i - n);
      }
    }
    FitsItsBits(low, n);
    SameBits(Or(low, ShiftLeft(high, n)), word);
  }

  datatype MessageForm =
    | Textual(maxSize: U32)
    | VariableBinary(maxSize: U32)
    | MmapBinary(size: U32)

  const FORM_SIZE: Range := Interval(2, 6)

  function FormAsRepr(form: MessageForm): Option<nat> {
    match form
    case Textual(maxSize) => SetPowerOf2(0, FORM_SIZE, maxSize)
    case VariableBinary(maxSize) => SetPowerOf2(1, FORM_SIZE, maxSize)
    case MmapBinary(size) => SetPowerOf2(2, FORM_SIZE, size)
  }

  function GetPowerOf2U32(config: nat, bits: Range): U32
    requires Length(bits) == 5
  {
    WordsOfPow2();
    GetsAPowerOf2(config, bits);
    GetPowerOf2(config, bits)
  }

  function FormFromRepr(repr: U8): Option<MessageForm> {
    var (variant, n) := (And(repr, 3), GetPowerOf2U32(repr, FORM_SIZE));
    match variant
    case 0 => Some(Textual(n))
    case 1 => Some(VariableBinary(n))
    case 2 => Some(MmapBinary(n))
    case _ => None
  }

  function SizeOf(form: MessageForm): U32 {
    match form
    case Textual(maxSize) => maxSize
    case VariableBinary(maxSize) => maxSize
    case MmapBinary(size) => size
  }

  lemma LogFits(value: U32)
    requires IsPowerOfTwo(value)
    ensures ILog2(value) < Pow2(5) == 32
  {
    WordsOfPow2();
    ILog2IsBelow(value, 32);
  }

  /** The variant stays below the logarithm of the size, and both in a byte. */
  lemma VariantIsHeld(variant: nat, log: nat)
    requires variant < 4 && log < Pow2(5)
    ensures SetBits(variant, FORM_SIZE, log).Some?
    ensures var repr := SetBits(variant, FORM_SIZE, log).value;
            And(repr, 3) == variant && repr < 0x100 && GetBits(repr, FORM_SIZE) == log
  {
    WordsOfPow2();
    PowersGrow(2, WORD);
    GetsWhatWasSet(variant, FORM_SIZE, log);
    var repr := SetBits(variant, FORM_SIZE, log).value;
    forall i: nat
      ensures Bit(And(repr, 3), i) <==> Bit(variant, i)
      ensures 8 <= i ==> !Bit(repr, i)
    {
      BitOfAnd(repr, 3, i);
      BitOfMask(2, i);
      BitOfSet(variant, FORM_SIZE, log, i);
      if 2 <= i {
        BitsOfFitting(variant, 2, i);
      }
    }
    SameBits(And(repr, 3), variant);
    FitsItsBits(repr, 8);
  }

  /** A form has a representation exactly when its size is a power of 2; then it comes back. */
  lemma FormRoundTrip(form: MessageForm)
    ensures FormAsRepr(form).Some? <==> IsPowerOfTwo(SizeOf(form))
    ensures FormAsRepr(form).Some? ==> FormAsRepr(form).value < 0x100
                                       && FormFromRepr(FormAsRepr(form).value) == Some(form)
  {
    if IsPowerOfTwo(SizeOf(form)) {
      var variant := if form.Textual? then 0 else if form.VariableBinary? then 1 else 2;
      var size := SizeOf(form);
      LogFits(size);
      VariantIsHeld(variant, ILog2(size));
      GetsThePowerOf2(FormAsRepr(form).value, FORM_SIZE, size);
    }
  }

  datatype RetryingStrategy =
    | DoNotRetry
    | EndCommunications
    | RetryWithBackoffUpTo(n: U8)
    | RetryYieldingForUpToMillis(n: U8)
    | RetrySpinningForUpToMillis(n: U8)

  function StrategyAsRepr(strategy: RetryingStrategy): nat {
    match strategy
    case DoNotRetry => 0
    case EndCommunications => 1
    case RetryWithBackoffUpTo(n) => Or(2, ShiftLeft(n, 3))
    case RetryYieldingForUpToMillis(n) => Or(3, ShiftLeft(n, 3))
    case RetrySpinningForUpToMillis(n) => Or(4, ShiftLeft(n, 3))
  }

  function StrategyFromRepr(repr: U16): Option<RetryingStrategy> {
    var (variant, n) := (And(repr, 7), ShiftRight(repr, 3));
    match variant
    case 0 => Some(DoNotRetry)
    case 1 => Some(EndCommunications)
    case 2 => Some(RetryWithBackoffUpTo(n % 0x100))
    case 3 => Some(RetryYieldingForUpToMillis(n % 0x100))
    case 4 => Some(RetrySpinningForUpToMillis(n % 0x100))
    case _ => None
  }

  lemma StrategySplits(variant: nat, n: nat)
    requires variant < 8
    ensures var repr := Or(variant, ShiftLeft(n, 3));
            repr == variant + 8 * n && And(repr, 7) == variant && ShiftRight(repr, 3) == n
  {
    WordsOfPow2();
    OrAddsAbove(variant, n, 3);
    ShiftIsProduct(n, 3);
    SplitsOr(variant, n, 3);
  }

  function Variant(strategy: RetryingStrategy): nat {
    match strategy
    case DoNotRetry => 0
    case EndCommunications => 1
    case RetryWithBackoffUpTo(_) => 2
    case RetryYieldingForUpToMillis(_) => 3
    case RetrySpinningForUpToMillis(_) => 4
  }

  function Data(strategy: RetryingStrategy): U8 {
    if strategy.DoNotRetry? || strategy.EndCommunications? then 0 else strategy.n
  }

  lemma StrategyReprIs(strategy: RetryingStrategy)
    ensures StrategyAsRepr(strategy) == Or(Variant(strategy), ShiftLeft(Data(strategy), 3))
  {
    StrategySplits(Variant(strategy), Data(strategy));
  }

  lemma StrategyIsDecoded(repr: U16, strategy: RetryingStrategy)
    requires And(repr, 7) == Variant(strategy) && ShiftRight(repr, 3) == Data(strategy)
    ensures StrategyFromRepr(repr) == Some(strategy)
  {
  }

  /** Every strategy comes back from the bits reserved for it. */
  lemma StrategyRoundTrip(strategy: RetryingStrategy)
    ensures StrategyAsRepr(strategy) < Pow2(11) == 0x800
    ensures StrategyFromRepr(StrategyAsRepr(strategy)) == Some(strategy)
  {
    assert Pow2(11) == 2 * Pow2(10) == 4 * Pow2(9) == 8 * Pow2(8) == 0x800 by {
      WordsOfPow2();
    }
    StrategyReprIs(strategy);
    StrategySplits(Variant(strategy), Data(strategy));
    StrategyIsDecoded(StrategyAsRepr(strategy), strategy);
  }

  type NonZeroU8 = x: int | 0 < x < 0x100 witness 1

  datatype SocketOptions = SocketOptions(hopsToLive: Option<NonZeroU8>, lingerMillis: Option<U32>, noDelay: Option<bool>)

  const LINGER_DATA: Range := Interval(3, 7)

  function AsNumber(b: bool): nat {
    if b then 1 else 0
  }

  predicate UnwrapOrFalse(flag: Option<bool>) {
    flag.Some? && flag.value
  }

  function OptionsAsRepr(options: SocketOptions): Option<nat> {
    var lingerData :- LingerAsRepr(options);
    Some(OptionsWord(options.noDelay.Some?, UnwrapOrFalse(options.noDelay), options.lingerMillis.Some?, lingerData,
                     Hops(options)))
  }

  function LingerAsRepr(options: SocketOptions): Option<nat> {
    if options.lingerMillis.Some? && options.lingerMillis.value > 0
    then SetPowerOf2(0, LINGER_DATA, options.lingerMillis.value)
    else Some(0)
  }

  function OptionsWord(noDelayFlag: bool, noDelayData: bool, lingerFlag: bool, lingerData: nat, hops: U8): nat {
    Or(Or(Or(Or(AsNumber(noDelayFlag), ShiftLeft(AsNumber(noDelayData), 1)), ShiftLeft(AsNumber(lingerFlag), 2)),
          lingerData), ShiftLeft(hops, 8))
  }

  function Hops(options: SocketOptions): U8 {
    if options.hopsToLive.Some? then options.hopsToLive.value else 0
  }

  function OptionsFromRepr(repr: U32): SocketOptions {
    OptionsFrom(Flag(repr, 0), Flag(repr, 1), Flag(repr, 2), GetPowerOf2U32(repr, LINGER_DATA), Octet(repr, 8))
  }

  predicate Flag(word: nat, n: nat) {
    And(word, ShiftLeft(1, n)) > 0
  }

  function Octet(word: nat, n: nat): U8 {
    ShiftRight(And(word, ShiftLeft(0xFF, n)), n) % 0x100
  }

  function OptionsFrom(noDelayFlag: bool, noDelayData: bool, lingerFlag: bool, lingerData: U32, hops: U8): SocketOptions {
    SocketOptions(if hops > 0 then Some(hops) else None,
                  if lingerFlag then Some(lingerData) else None,
                  if noDelayFlag then Some(noDelayData) else None)
  }

  /** Can the options be represented? */
  predicate RepresentableOptions(options: SocketOptions) {
    options.lingerMillis.Some? && options.lingerMillis.value > 0 ==> IsPowerOfTwo(options.lingerMillis.value)
  }

  lemma FlagIsBit(word: nat, n: nat)
    ensures Flag(word, n) <==> Bit(word, n)
  {
    var flag := And(word, ShiftLeft(1, n));
    forall i: nat ensures Bit(flag, i) <==> i == n && Bit(word, n) {
      BitOfAnd(word, ShiftLeft(1, n), i);
      BitOfShiftLeft(1, n, i);
      BitOfZero(i);
      if i > n {
        BitsOfFitting(1, 1, i - n);
      }
    }
    BitOfZero(n);
    if !Bit(word, n) {
      forall i: nat ensures Bit(flag, i) <==> Bit(0, i) {
        BitOfZero(i);
      }
      SameBits(flag, 0);
    }
  }

  lemma BitOfFlag(flag: bool, n: nat, i: nat)
    ensures Bit(ShiftLeft(AsNumber(flag), n), i) <==> flag && i == n
  {
    BitOfShiftLeft(AsNumber(flag), n, i);
    if i > n {
      BitsOfFitting(AsNumber(flag), 1, i - n);
    }
  }

  function LingerLog(options: SocketOptions): nat {
    if options.lingerMillis.Some? && options.lingerMillis.value > 0 then ILog2(options.lingerMillis.value) else 0
  }

  /** Where each option goes. */
  predicate OptionBit(options: SocketOptions, i: nat) {
    || (i == 0 && options.noDelay.Some?)
    || (i == 1 && UnwrapOrFalse(options.noDelay))
    || (i == 2 && options.lingerMillis.Some?)
    || (3 <= i <= 7 && Bit(LingerLog(options), i - 3))
    || (8 <= i && Bit(Hops(options), i - 8))
  }

  lemma BitOfLinger(options: SocketOptions, i: nat)
    requires RepresentableOptions(options)
    ensures var data := LingerAsRepr(options);
            data.Some? && (Bit(data.value, i) <==> 3 <= i <= 7 && Bit(LingerLog(options), i - 3))
  {
    BitOfZero(i);
    if options.lingerMillis.Some? && options.lingerMillis.value > 0 {
      LogFits(options.lingerMillis.value);
      BitOfSet(0, LINGER_DATA, LingerLog(options), i);
    } else if 3 <= i {
      BitOfZero(i - 3);
    }
  }

  ghost predicate HoldsOptions(repr: nat, options: SocketOptions) {
    forall i: nat :: Bit(repr, i) <==> OptionBit(options, i)
  }

  lemma BitOfWord(noDelayFlag: bool, noDelayData: bool, lingerFlag: bool, lingerData: nat, hops: U8, i: nat)
    ensures Bit(OptionsWord(noDelayFlag, noDelayData, lingerFlag, lingerData, hops), i)
       <==> || (i == 0 && noDelayFlag)
            || (i == 1 && noDelayData)
            || (i == 2 && lingerFlag)
            || Bit(lingerData, i)
            || (8 <= i && Bit(hops, i - 8))
  {
    var (a, b, c, e) := (AsNumber(noDelayFlag), ShiftLeft(AsNumber(noDelayData), 1), ShiftLeft(AsNumber(lingerFlag), 2), ShiftLeft(hops, 8));
    BitOfFlag(noDelayFlag, 0, i);
    BitOfFlag(noDelayData, 1, i);
    BitOfFlag(lingerFlag, 2, i);
    BitOfShiftLeft(hops, 8, i);
    BitOfOr(a, b, i);
    BitOfOr(Or(a, b), c, i);
    BitOfOr(Or(Or(a, b), c), lingerData, i);
    BitOfOr(Or(Or(Or(a, b), c), lingerData), e, i);
  }

  lemma ReprHoldsOptions(options: SocketOptions)
    requires RepresentableOptions(options)
    ensures OptionsAsRepr(options).Some? && HoldsOptions(OptionsAsRepr(options).value, options)
  {
    BitOfLinger(options, 0);
    var lingerData := LingerAsRepr(options).value;
    forall i: nat ensures Bit(OptionsAsRepr(options).value, i) <==> OptionBit(options, i) {
      BitOfLinger(options, i);
      BitOfWord(options.noDelay.Some?, UnwrapOrFalse(options.noDelay), options.lingerMillis.Some?, lingerData, Hops(options), i);
    }
  }

  lemma OptionsFit(repr: nat, options: SocketOptions)
    requires HoldsOptions(repr, options)
    ensures repr < Pow2(16) == 0x1_0000
  {
    WordsOfPow2();
    forall i: nat | 16 <= i ensures !Bit(repr, i) {
      BitsOfFitting(Hops(options), 8, i - 8);
    }
    FitsItsBits(repr, 16);
  }

  lemma LingerIsHeld(repr: nat, options: SocketOptions)
    requires HoldsOptions(repr, options) && RepresentableOptions(options)
    ensures GetBits(repr, LINGER_DATA) == LingerLog(options)
  {
    WordsOfPow2();
    if options.lingerMillis.Some? && options.lingerMillis.value > 0 {
      LogFits(options.lingerMillis.value);
    }
    forall i: nat ensures Bit(GetBits(repr, LINGER_DATA), i) <==> Bit(LingerLog(options), i) {
      BitOfGet(repr, LINGER_DATA, i);
      if 5 <= i {
        BitsOfFitting(LingerLog(options), 5, i);
      }
    }
    SameBits(GetBits(repr, LINGER_DATA), LingerLog(options));
  }

  lemma HopsAreHeld(repr: nat, options: SocketOptions)
    requires HoldsOptions(repr, options)
    ensures Octet(repr, 8) == Hops(options)
  {
    forall i: nat ensures Bit(Hops(options), i) <==> i < 8 && Bit(repr, 8 + i) {
      if 8 <= i {
        WordsOfPow2();
        BitsOfFitting(Hops(options), 8, i);
      }
    }
    OctetIs(repr, 8, Hops(options));
  }

  lemma OctetIs(word: nat, n: nat, octet: U8)
    requires forall i: nat :: Bit(octet, i) <==> i < 8 && Bit(word, n + i)
    ensures Octet(word, n) == octet
  {
    WordsOfPow2();
    var masked := And(word, ShiftLeft(0xFF, n));
    forall i: nat ensures Bit(ShiftRight(masked, n), i) <==> Bit(octet, i) {
      BitOfShiftRight(masked, n, i);
      BitOfAnd(word, ShiftLeft(0xFF, n), n + i);
      BitOfShiftLeft(0xFF, n, n + i);
      BitOfMask(8, i);
    }
    SameBits(ShiftRight(masked, n), octet);
  }

  /** The options that come back: a linger of 0 is stored as its logarithm, so it comes back as 1. */
  function Restored(options: SocketOptions): SocketOptions {
    if options.lingerMillis == Some(0) then options.(lingerMillis := Some(1)) else options
  }

  lemma FlagsAreHeld(repr: nat, options: SocketOptions)
    requires HoldsOptions(repr, options)
    ensures Flag(repr, 0) <==> options.noDelay.Some?
    ensures Flag(repr, 1) <==> UnwrapOrFalse(options.noDelay)
    ensures Flag(repr, 2) <==> options.lingerMillis.Some?
  {
    forall n: nat ensures Flag(repr, n) <==> OptionBit(options, n) {
      FlagIsBit(repr, n);
    }
  }

  lemma OptionsAreRestored(options: SocketOptions, lingerData: U32)
    requires options.lingerMillis.Some? ==> Restored(options).lingerMillis == Some(lingerData)
    ensures OptionsFrom(options.noDelay.Some?, UnwrapOrFalse(options.noDelay), options.lingerMillis.Some?, lingerData, Hops(options))
         == Restored(options)
  {
  }

  lemma LingerComesBack(repr: nat, options: SocketOptions)
    requires HoldsOptions(repr, options) && RepresentableOptions(options) && options.lingerMillis.Some?
    ensures Restored(options).lingerMillis == Some(GetPowerOf2U32(repr, LINGER_DATA))
  {
    LingerIsHeld(repr, options);
    GetsThePowerOf2(repr, LINGER_DATA, Restored(options).lingerMillis.value);
  }

  lemma OptionsAreDecoded(repr: U32, options: SocketOptions)
    requires HoldsOptions(repr, options) && RepresentableOptions(options)
    ensures OptionsFromRepr(repr) == Restored(options)
  {
    FlagsAreHeld(repr, options);
    HopsAreHeld(repr, options);
    if options.lingerMillis.Some? {
      LingerComesBack(repr, options);
    }
    OptionsAreRestored(options, GetPowerOf2U32(repr, LINGER_DATA));
  }

  /** Options have a representation exactly when the linger is absent, 0 or a power of 2; all come back but a linger of 0. */
  lemma OptionsRoundTrip(options: SocketOptions)
    ensures OptionsAsRepr(options).Some? <==> RepresentableOptions(options)
    ensures RepresentableOptions(options) ==> OptionsAsRepr(options).value < Pow2(16) == 0x1_0000
                                              && OptionsFromRepr(OptionsAsRepr(options).value) == Restored(options)
  {
    if RepresentableOptions(options) {
      ReprHoldsOptions(options);
      OptionsFit(OptionsAsRepr(options).value, options);
      OptionsAreDecoded(OptionsAsRepr(options).value, options);
    }
  }

  // ---------- the configuration ----------

  /** The representation of the instruments is chosen by the library that defines them. */
  datatype ConstConfig = ConstConfig(
    senderChannelSize: U32, receiverChannelSize: U32, senderMaxMsgSize: U32, receiverMaxMsgSize: U32,
    flushTimeoutMillis: U16, retryingStrategy: RetryingStrategy, socketOptions: SocketOptions, executorInstruments: nat)

  const SENDER_CHANNEL_SIZE: Range := Interval(0, 4)
  const RECEIVER_CHANNEL_SIZE: Range := Interval(5, 9)
  const SENDER_MAX_MSG_SIZE: Range := Interval(10, 14)
  const RECEIVER_MAX_MSG_SIZE: Range := Interval(15, 19)
  const FLUSH_TIMEOUT_MILLIS: Range := Interval(20, 23)
  const RETRYING_STRATEGY: Range := Interval(24, 34)
  const SOCKET_OPTIONS: Range := Interval(35, 50)
  const EXECUTOR_INSTRUMENTS: Range := Interval(51, 59)

  const LAYOUT: seq<Range> := [SENDER_CHANNEL_SIZE, RECEIVER_CHANNEL_SIZE, SENDER_MAX_MSG_SIZE, RECEIVER_MAX_MSG_SIZE,
                               FLUSH_TIMEOUT_MILLIS, RETRYING_STRATEGY, SOCKET_OPTIONS, EXECUTOR_INSTRUMENTS]

  /** The word with the fields set one after the other; nothing when one can't be. */
  function Pack(layout: seq<Range>, fields: seq<Option<nat>>, n: nat): Option<nat>
    requires n <= |fields| == |layout|
  {
    if n == 0 then Some(0)
    else
      var config :- Pack(layout, fields, n - 1);
      var value :- fields[n - 1];
      SetBits(config, layout[n - 1], value)
  }

  predicate AllFit(layout: seq<Range>, fields: seq<Option<nat>>, n: nat)
    requires n <= |fields| == |layout|
  {
    forall k | 0 <= k < n :: fields[k].Some? && Fits(layout[k], fields[k].value)
  }

  predicate NonOverlapping(layout: seq<Range>) {
    forall j, k | 0 <= j < k < |layout| :: Disjoint(layout[j], layout[k])
  }

  /** Does the word hold the first `n` fields, each in its own range? */
  predicate HoldsFields(word: nat, layout: seq<Range>, fields: seq<Option<nat>>, n: nat)
    requires n <= |fields| == |layout|
  {
    word < Pow2(WORD) && forall k | 0 <= k < n :: fields[k] == Some(GetBits(word, layout[k]))
  }

  /** Fields are packed exactly when all fit; then each is got back from its own range. */
  lemma {:induction false} PackedIsUnpacked(layout: seq<Range>, fields: seq<Option<nat>>, n: nat)
    requires n <= |fields| == |layout| && NonOverlapping(layout)
    ensures Pack(layout, fields, n).Some? <==> AllFit(layout, fields, n)
    ensures Pack(layout, fields, n).Some? ==> HoldsFields(Pack(layout, fields, n).value, layout, fields, n)
  {
    if n > 0 {
      PackedIsUnpacked(layout, fields, n - 1);
      if AllFit(layout, fields, n - 1) && fields[n - 1].Some? {
        PacksOneMore(layout, fields, n - 1);
      }
    }
  }

  lemma PacksOneMore(layout: seq<Range>, fields: seq<Option<nat>>, n: nat)
    requires n < |fields| == |layout| && NonOverlapping(layout) && fields[n].Some?
    requires Pack(layout, fields, n).Some? && HoldsFields(Pack(layout, fields, n).value, layout, fields, n)
    ensures Pack(layout, fields, n + 1).Some? <==> Fits(layout[n], fields[n].value)
    ensures Pack(layout, fields, n + 1).Some? ==> HoldsFields(Pack(layout, fields, n + 1).value, layout, fields, n + 1)
  {
    var (config, value) := (Pack(layout, fields, n).value, fields[n].value);
    SetsWhatFits(config, layout[n], value);
    if Fits(layout[n], value) {
      GetsWhatWasSet(config, layout[n], value);
      forall k | 0 <= k < n ensures fields[k] == Some(GetBits(SetBits(config, layout[n], value).value, layout[k])) {
        SetsNothingElse(config, layout[n], value, layout[k]);
      }
    }
  }

  lemma {:induction false} NotPackedAfterFailure(layout: seq<Range>, fields: seq<Option<nat>>, n: nat, all: nat)
    requires n <= all <= |fields| == |layout| && Pack(layout, fields, n).None?
    ensures Pack(layout, fields, all).None?
    decreases all
  {
    if n < all {
      NotPackedAfterFailure(layout, fields, n, all - 1);
    }
  }

  lemma LayoutIsSound()
    ensures |LAYOUT| == 8
    ensures NonOverlapping(LAYOUT) && Ascending(LAYOUT)
  {
  }

  /** Can the configuration be packed in a word? */
  predicate Packable(config: ConstConfig) {
    && IsPowerOfTwo(config.senderChannelSize)
    && IsPowerOfTwo(config.receiverChannelSize)
    && IsPowerOfTwo(config.senderMaxMsgSize)
    && IsPowerOfTwo(config.receiverMaxMsgSize)
    && IsPowerOfTwo(config.flushTimeoutMillis)
    && RepresentableOptions(config.socketOptions)
    && Fits(EXECUTOR_INSTRUMENTS, config.executorInstruments)
  }

  function Log(value: nat): Option<nat> {
    if IsPowerOfTwo(value) then Some(ILog2(value)) else None
  }

  /** What goes in each range of the layout. */
  function Fields(config: ConstConfig): (fields: seq<Option<nat>>)
    ensures |fields| == |LAYOUT|
  {
    seq(|LAYOUT|, k requires 0 <= k < |LAYOUT| => Field(config, k))
  }

  function Field(config: ConstConfig, k: nat): Option<nat> {
    match k
    case 0 => Log(config.senderChannelSize)
    case 1 => Log(config.receiverChannelSize)
    case 2 => Log(config.senderMaxMsgSize)
    case 3 => Log(config.receiverMaxMsgSize)
    case 4 => Log(config.flushTimeoutMillis)
    case 5 => Some(StrategyAsRepr(config.retryingStrategy))
    case 6 => OptionsAsRepr(config.socketOptions)
    case _ => Some(config.executorInstruments)
  }

  function Packed(config: ConstConfig): Option<nat> {
    Pack(LAYOUT, Fields(config), |LAYOUT|)
  }

  method SetBitsOfField(config: nat, bits: Range, value: nat, ghost fields: seq<Option<nat>>, ghost k: nat)
    returns (config': Option<nat>)
    requires k < |fields| == |LAYOUT| && bits == LAYOUT[k] && fields[k] == Some(value)
    requires Pack(LAYOUT, fields, k) == Some(config)
    ensures config' == Pack(LAYOUT, fields, k + 1)
    ensures config'.None? ==> Pack(LAYOUT, fields, |LAYOUT|).None?
  {
    config' := SetBits(config, bits, value);
    if config'.None? {
      NotPackedAfterFailure(LAYOUT, fields, k + 1, |LAYOUT|);
    }
  }

  method SetPowerOf2OfField(config: nat, bits: Range, value: nat, ghost fields: seq<Option<nat>>, ghost k: nat)
    returns (config': Option<nat>)
    requires k < |fields| == |LAYOUT| && bits == LAYOUT[k] && fields[k] == Log(value)
    requires Pack(LAYOUT, fields, k) == Some(config)
    ensures config' == Pack(LAYOUT, fields, k + 1)
    ensures config'.None? ==> Pack(LAYOUT, fields, |LAYOUT|).None?
  {
    config' := SetPowerOf2(config, bits, value);
    if config'.None? {
      NotPackedAfterFailure(LAYOUT, fields, k + 1, |LAYOUT|);
    }
  }

  method ChannelSizesInto(self: ConstConfig, ghost fields: seq<Option<nat>>) returns (sizes: Option<nat>)
    requires fields == Fields(self)
    ensures if sizes.Some? then sizes == Pack(LAYOUT, fields, 2) else Pack(LAYOUT, fields, |LAYOUT|).None?
  {
    var config := 0;
    config :- SetPowerOf2OfField(config, SENDER_CHANNEL_SIZE, self.senderChannelSize, fields, 0);
    config :- SetPowerOf2OfField(config, RECEIVER_CHANNEL_SIZE, self.receiverChannelSize, fields, 1);
    sizes := Some(config);
  }

  method MsgSizesInto(self: ConstConfig, channelSizes: nat, ghost fields: seq<Option<nat>>) returns (sizes: Option<nat>)
    requires fields == Fields(self) && Some(channelSizes) == Pack(LAYOUT, fields, 2)
    ensures if sizes.Some? then sizes == Pack(LAYOUT, fields, 4) else Pack(LAYOUT, fields, |LAYOUT|).None?
  {
    var config := channelSizes;
    config :- SetPowerOf2OfField(config, SENDER_MAX_MSG_SIZE, self.senderMaxMsgSize, fields, 2);
    config :- SetPowerOf2OfField(config, RECEIVER_MAX_MSG_SIZE, self.receiverMaxMsgSize, fields, 3);
    sizes := Some(config);
  }

  method TimingInto(self: ConstConfig, sizes: nat, ghost fields: seq<Option<nat>>) returns (timing: Option<nat>)
    requires fields == Fields(self) && Some(sizes) == Pack(LAYOUT, fields, 4)
    ensures if timing.Some? then timing == Pack(LAYOUT, fields, 6) else Pack(LAYOUT, fields, |LAYOUT|).None?
  {
    var config := sizes;
    config :- SetPowerOf2OfField(config, FLUSH_TIMEOUT_MILLIS, self.flushTimeoutMillis, fields, 4);
    var retryingStrategyRepr := StrategyAsRepr(self.retryingStrategy);
    config :- SetBitsOfField(config, RETRYING_STRATEGY, retryingStrategyRepr, fields, 5);
    timing := Some(config);
  }

  method OptionsInto(self: ConstConfig, timing: nat, ghost fields: seq<Option<nat>>) returns (options: Option<nat>)
    requires fields == Fields(self) && Some(timing) == Pack(LAYOUT, fields, 6)
    ensures if options.Some? then options == Pack(LAYOUT, fields, 7) else Pack(LAYOUT, fields, |LAYOUT|).None?
  {
    var socketOptionsRepr := OptionsAsRepr(self.socketOptions);
    if socketOptionsRepr.None? {
      NotPackedAfterFailure(LAYOUT, fields, 7, |LAYOUT|);
      return None;
    }
    options := SetBitsOfField(timing, SOCKET_OPTIONS, socketOptionsRepr.value, fields, 6);
  }

  /** The word for a configuration; nothing when there is none: the program panics. */
  method Into(self: ConstConfig) returns (word: Option<nat>)
    ensures word == Packed(self)
  {
    ghost var fields := Fields(self);
    var config :- ChannelSizesInto(self, fields);
    config :- MsgSizesInto(self, config, fields);
    config :- TimingInto(self, config, fields);
    config :- OptionsInto(self, config, fields);
    config :- SetBitsOfField(config, EXECUTOR_INSTRUMENTS, self.executorInstruments, fields, 7);
    word := Some(config);
  }

  /** A configuration has a word exactly when it can be packed. */
  lemma PackedIfPackable(config: ConstConfig)
    ensures Packed(config).Some? <==> Packable(config)
  {
    LayoutIsSound();
    PackedIsUnpacked(LAYOUT, Fields(config), |LAYOUT|);
    if Packable(config) {
      PackableFits(config);
    } else if AllFit(LAYOUT, Fields(config), |LAYOUT|) {
      FittingIsPackable(config);
    }
  }

  lemma PackableFits(config: ConstConfig)
    requires Packable(config)
    ensures AllFit(LAYOUT, Fields(config), |LAYOUT|)
  {
    LogFits(config.senderChannelSize);
    LogFits(config.receiverChannelSize);
    LogFits(config.senderMaxMsgSize);
    LogFits(config.receiverMaxMsgSize);
    ShortLogFits(config.flushTimeoutMillis);
    StrategyRoundTrip(config.retryingStrategy);
    OptionsRoundTrip(config.socketOptions);
  }

  lemma ShortLogFits(value: U16)
    requires IsPowerOfTwo(value)
    ensures ILog2(value) < Pow2(4)
  {
    WordsOfPow2();
    ILog2IsBelow(value, 16);
  }

  lemma FittingIsPackable(config: ConstConfig)
    requires AllFit(LAYOUT, Fields(config), |LAYOUT|)
    ensures Packable(config)
  {
    var fields := Fields(config);
    assert fields[0].Some? && fields[1].Some? && fields[2].Some? && fields[3].Some? && fields[4].Some? && fields[6].Some?;
    assert Fits(LAYOUT[7], fields[7].value);
    OptionsRoundTrip(config.socketOptions);
  }

  function GetPowerOf2U16(config: nat, bits: Range): U16
    requires Length(bits) == 4
  {
    WordsOfPow2();
    GetsAPowerOf2(config, bits);
    GetPowerOf2(config, bits)
  }

  function RetryingStrategyBits(config: nat): U16 {
    GetFits(config, RETRYING_STRATEGY);
    WordsOfPow2();
    PowersGrow(11, 16);
    GetBits(config, RETRYING_STRATEGY)
  }

  function SocketOptionsBits(config: nat): U32 {
    GetFits(config, SOCKET_OPTIONS);
    WordsOfPow2();
    GetBits(config, SOCKET_OPTIONS)
  }

  /** The configuration in a word; nothing when there is none: the program panics. */
  function From(config: nat): Option<ConstConfig> {
    var retryingStrategy :- StrategyFromRepr(RetryingStrategyBits(config));
    Some(ConstConfig(
      flushTimeoutMillis := GetPowerOf2U16(config, FLUSH_TIMEOUT_MILLIS),
      senderChannelSize := GetPowerOf2U32(config, SENDER_CHANNEL_SIZE),
      receiverChannelSize := GetPowerOf2U32(config, RECEIVER_CHANNEL_SIZE),
      senderMaxMsgSize := GetPowerOf2U32(config, SENDER_MAX_MSG_SIZE),
      receiverMaxMsgSize := GetPowerOf2U32(config, RECEIVER_MAX_MSG_SIZE),
      retryingStrategy := retryingStrategy,
      socketOptions := OptionsFromRepr(SocketOptionsBits(config)),
      executorInstruments := GetBits(config, EXECUTOR_INSTRUMENTS)))
  }

  predicate Holds(word: nat, config: ConstConfig) {
    HoldsFields(word, LAYOUT, Fields(config), |LAYOUT|)
  }

  lemma PackedHolds(config: ConstConfig)
    requires Packable(config)
    ensures Packed(config).Some? && Holds(Packed(config).value, config)
  {
    PackedIfPackable(config);
    LayoutIsSound();
    PackedIsUnpacked(LAYOUT, Fields(config), |LAYOUT|);
  }

  lemma HeldSizes(word: nat, config: ConstConfig)
    requires Packable(config) && Holds(word, config)
    ensures GetPowerOf2(word, SENDER_CHANNEL_SIZE) == config.senderChannelSize
    ensures GetPowerOf2(word, RECEIVER_CHANNEL_SIZE) == config.receiverChannelSize
    ensures GetPowerOf2(word, SENDER_MAX_MSG_SIZE) == config.senderMaxMsgSize
    ensures GetPowerOf2(word, RECEIVER_MAX_MSG_SIZE) == config.receiverMaxMsgSize
    ensures GetPowerOf2(word, FLUSH_TIMEOUT_MILLIS) == config.flushTimeoutMillis
  {
    HeldField(word, config, 0);
    HeldField(word, config, 1);
    HeldField(word, config, 2);
    HeldField(word, config, 3);
    HeldField(word, config, 4);
    GetsThePowerOf2(word, SENDER_CHANNEL_SIZE, config.senderChannelSize);
    GetsThePowerOf2(word, RECEIVER_CHANNEL_SIZE, config.receiverChannelSize);
    GetsThePowerOf2(word, SENDER_MAX_MSG_SIZE, config.senderMaxMsgSize);
    GetsThePowerOf2(word, RECEIVER_MAX_MSG_SIZE, config.receiverMaxMsgSize);
    GetsThePowerOf2(word, FLUSH_TIMEOUT_MILLIS, config.flushTimeoutMillis);
  }

  lemma HeldField(word: nat, config: ConstConfig, k: nat)
    requires Holds(word, config) && k < |LAYOUT|
    ensures Field(config, k) == Some(GetBits(word, LAYOUT[k]))
  {
    assert Fields(config)[k] == Field(config, k);
  }

  lemma HeldRest(word: nat, config: ConstConfig)
    requires Packable(config) && Holds(word, config)
    ensures StrategyFromRepr(RetryingStrategyBits(word)) == Some(config.retryingStrategy)
    ensures OptionsFromRepr(SocketOptionsBits(word)) == Restored(config.socketOptions)
    ensures GetBits(word, EXECUTOR_INSTRUMENTS) == config.executorInstruments
  {
    HeldField(word, config, 5);
    HeldField(word, config, 6);
    HeldField(word, config, 7);
    StrategyRoundTrip(config.retryingStrategy);
    OptionsRoundTrip(config.socketOptions);
  }

  lemma HeldIsUnpacked(word: nat, config: ConstConfig)
    requires Packable(config) && Holds(word, config)
    ensures From(word) == Some(config.(socketOptions := Restored(config.socketOptions)))
  {
    HeldSizes(word, config);
    HeldRest(word, config);
  }

  /** Every configuration that can be packed comes back from its word, but for a linger of 0: so the same configuration
      comes back if, and only if, the linger is not 0. */
  lemma ConfigRoundTrip(config: ConstConfig)
    requires Packable(config)
    ensures Packed(config).Some?
    ensures From(Packed(config).value) == Some(config.(socketOptions := Restored(config.socketOptions)))
    ensures From(Packed(config).value) == Some(config) <==> config.socketOptions.lingerMillis != Some(0)
  {
    PackedHolds(config);
    HeldIsUnpacked(Packed(config).value, config);
  }

  // ---------- the layout of the words, in numbers ----------

  /** Setting a range above all bits that are set adds the value, shifted. */
  lemma SetsAbove(config: nat, bits: Range, value: nat)
    requires config < Pow2(bits.start) && Fits(bits, value)
    ensures SetBits(config, bits, value) == Some(config + value * Pow2(bits.start))
    ensures config + value * Pow2(bits.start) < Pow2(bits.end + 1)
  {
    PowersGrow(bits.start, WORD);
    SetsWhatFits(config, bits, value);
    var hole := Not(WORD, ShiftLeft(Mask(bits), bits.start));
    forall i: nat
      ensures Bit(And(config, hole), i) <==> Bit(config, i)
      ensures bits.end < i ==> !Bit(SetBits(config, bits, value).value, i)
    {
      BitOfAnd(config, hole, i);
      BitOfNot(WORD, ShiftLeft(Mask(bits), bits.start), i);
      BitOfShiftLeft(Mask(bits), bits.start, i);
      BitOfSet(config, bits, value, i);
      if bits.start <= i {
        BitsOfFitting(config, bits.start, i);
      }
    }
    SameBits(And(config, hole), config);
    FitsItsBits(SetBits(config, bits, value).value, bits.end + 1);
    OrAddsAbove(config, value, bits.start);
    ShiftIsProduct(value, bits.start);
  }

  function Weighed(layout: seq<Range>, fields: seq<Option<nat>>, n: nat): nat
    requires n <= |fields| == |layout| && forall k | 0 <= k < n :: fields[k].Some?
  {
    if n == 0 then 0 else Weighed(layout, fields, n - 1) + fields[n - 1].value * Pow2(layout[n - 1].start)
  }

  predicate Ascending(layout: seq<Range>) {
    forall k | 0 < k < |layout| :: layout[k - 1].end < layout[k].start
  }

  lemma {:induction false} PackedIsWeighed(layout: seq<Range>, fields: seq<Option<nat>>, n: nat)
    requires n <= |fields| == |layout| && Ascending(layout) && AllFit(layout, fields, n)
    ensures Pack(layout, fields, n) == Some(Weighed(layout, fields, n))
    ensures Weighed(layout, fields, n) < if n == 0 then 1 else Pow2(layout[n - 1].end + 1)
  {
    if n > 0 {
      PackedIsWeighed(layout, fields, n - 1);
      PowersGrow(if n == 1 then 0 else layout[n - 2].end + 1, layout[n - 1].start);
      WeighsOneMore(layout, fields, n - 1, Weighed(layout, fields, n - 1));
    }
  }

  lemma WeighsOneMore(layout: seq<Range>, fields: seq<Option<nat>>, n: nat, word: nat)
    requires n < |fields| == |layout| && Pack(layout, fields, n) == Some(word) && word < Pow2(layout[n].start)
    requires fields[n].Some? && Fits(layout[n], fields[n].value)
    ensures Pack(layout, fields, n + 1) == Some(word + fields[n].value * Pow2(layout[n].start))
    ensures word + fields[n].value * Pow2(layout[n].start) < Pow2(layout[n].end + 1)
  {
    SetsAbove(word, layout[n], fields[n].value);
  }

  lemma WeightsOfFields()
    ensures Pow2(0) == 1 && Pow2(5) == 0x20 && Pow2(10) == 0x400 && Pow2(15) == 0x8000 && Pow2(20) == 0x10_0000
    ensures Pow2(24) == 0x100_0000 && Pow2(35) == 0x8_0000_0000 && Pow2(51) == 0x8_0000_0000_0000
  {
    WordsOfPow2();
    assert Pow2(10) == 2 * Pow2(9) == 4 * Pow2(8);
    assert Pow2(15) == 2 * Pow2(14) == 4 * Pow2(13) == 8 * Pow2(12) == 16 * Pow2(11) == 32 * Pow2(10);
    assert Pow2(20) == 2 * Pow2(19) == 4 * Pow2(18) == 8 * Pow2(17) == 16 * Pow2(16);
    assert Pow2(24) == 2 * Pow2(23) == 4 * Pow2(22) == 8 * Pow2(21) == 16 * Pow2(20);
    assert Pow2(35) == 2 * Pow2(34) == 4 * Pow2(33) == 8 * Pow2(32);
    assert Pow2(39) == 2 * Pow2(38) == 4 * Pow2(37) == 8 * Pow2(36) == 16 * Pow2(35);
    assert Pow2(43) == 2 * Pow2(42) == 4 * Pow2(41) == 8 * Pow2(40) == 16 * Pow2(39);
    assert Pow2(47) == 2 * Pow2(46) == 4 * Pow2(45) == 8 * Pow2(44) == 16 * Pow2(43);
    assert Pow2(51) == 2 * Pow2(50) == 4 * Pow2(49) == 8 * Pow2(48) == 16 * Pow2(47);
  }

  lemma WeighFields(f: seq<Option<nat>>)
    requires |f| == |LAYOUT| && forall k | 0 <= k < |LAYOUT| :: f[k].Some?
    ensures Weighed(LAYOUT, f, |LAYOUT|) ==
              f[0].value * Pow2(0) + f[1].value * Pow2(5) + f[2].value * Pow2(10) + f[3].value * Pow2(15)
              + f[4].value * Pow2(20) + f[5].value * Pow2(24) + f[6].value * Pow2(35) + f[7].value * Pow2(51)
  {
    assert Weighed(LAYOUT, f, 1) == Weighed(LAYOUT, f, 0) + f[0].value * Pow2(LAYOUT[0].start);
    assert Weighed(LAYOUT, f, 2) == Weighed(LAYOUT, f, 1) + f[1].value * Pow2(LAYOUT[1].start);
    assert Weighed(LAYOUT, f, 3) == Weighed(LAYOUT, f, 2) + f[2].value * Pow2(LAYOUT[2].start);
    assert Weighed(LAYOUT, f, 4) == Weighed(LAYOUT, f, 3) + f[3].value * Pow2(LAYOUT[3].start);
    assert Weighed(LAYOUT, f, 5) == Weighed(LAYOUT, f, 4) + f[4].value * Pow2(LAYOUT[4].start);
    assert Weighed(LAYOUT, f, 6) == Weighed(LAYOUT, f, 5) + f[5].value * Pow2(LAYOUT[5].start);
    assert Weighed(LAYOUT, f, 7) == Weighed(LAYOUT, f, 6) + f[6].value * Pow2(LAYOUT[6].start);
  }

  lemma WeighPacked(config: ConstConfig)
    requires Packable(config)
    ensures AllFit(LAYOUT, Fields(config), |LAYOUT|) && Packed(config) == Some(Weighed(LAYOUT, Fields(config), |LAYOUT|))
  {
    PackableFits(config);
    LayoutIsSound();
    PackedIsWeighed(LAYOUT, Fields(config), |LAYOUT|);
  }

  /** The word, as a number: each logarithm, nested representation and the instruments with the weight of its bits. */
  lemma WordIsWeighed(config: ConstConfig)
    requires Packable(config)
    ensures OptionsAsRepr(config.socketOptions).Some?
    ensures Packed(config) ==
              Some(ILog2(config.senderChannelSize) + 0x20 * ILog2(config.receiverChannelSize)
                   + 0x400 * ILog2(config.senderMaxMsgSize) + 0x8000 * ILog2(config.receiverMaxMsgSize)
                   + 0x10_0000 * ILog2(config.flushTimeoutMillis) + 0x100_0000 * StrategyAsRepr(config.retryingStrategy)
                   + 0x8_0000_0000 * OptionsAsRepr(config.socketOptions).value
                   + 0x8_0000_0000_0000 * config.executorInstruments)
  {
    WeighPacked(config);
    var f := Fields(config);
    WeighFields(f);
    WeightsOfFields();
    FieldsOf(config);
  }

  lemma FieldsOf(config: ConstConfig)
    requires Packable(config)
    ensures var f := Fields(config);
            && f[0] == Some(ILog2(config.senderChannelSize)) && f[1] == Some(ILog2(config.receiverChannelSize))
            && f[2] == Some(ILog2(config.senderMaxMsgSize)) && f[3] == Some(ILog2(config.receiverMaxMsgSize))
            && f[4] == Some(ILog2(config.flushTimeoutMillis)) && f[5] == Some(StrategyAsRepr(config.retryingStrategy))
            && f[6] == OptionsAsRepr(config.socketOptions) && f[6].Some? && f[7] == Some(config.executorInstruments)
  {
    OptionsRoundTrip(config.socketOptions);
  }

  /** The representation of a strategy, as a number. */
  lemma StrategyIsWeighed(n: U8)
    ensures StrategyAsRepr(DoNotRetry) == 0 && StrategyAsRepr(EndCommunications) == 1
    ensures StrategyAsRepr(RetryWithBackoffUpTo(n)) == 2 + 8 * n
    ensures StrategyAsRepr(RetryYieldingForUpToMillis(n)) == 3 + 8 * n
    ensures StrategyAsRepr(RetrySpinningForUpToMillis(n)) == 4 + 8 * n
  {
    StrategySplits(2, n);
    StrategySplits(3, n);
    StrategySplits(4, n);
  }

  lemma OptionsWordIsWeighed(noDelayFlag: bool, noDelayData: bool, lingerFlag: bool, log: nat, hops: U8)
    requires log < 32
    ensures OptionsWord(noDelayFlag, noDelayData, lingerFlag, ShiftLeft(log, 3), hops)
         == AsNumber(noDelayFlag) + 2 * AsNumber(noDelayData) + 4 * AsNumber(lingerFlag) + 8 * log + 0x100 * hops
  {
    WordsOfPow2();
    assert Pow2(1) == 2 * Pow2(0);
    var (a, b, c) := (AsNumber(noDelayFlag), AsNumber(noDelayData), AsNumber(lingerFlag));
    OrAddsProduct(a, b, 1, 2);
    OrAddsProduct(a + 2 * b, c, 2, 4);
    OrAddsProduct(a + 2 * b + 4 * c, log, 3, 8);
    OrAddsProduct(a + 2 * b + 4 * c + 8 * log, hops, 8, 0x100);
  }

  lemma OrAddsProduct(x: nat, y: nat, n: nat, weight: nat)
    requires weight == Pow2(n) && x < weight
    ensures Or(x, ShiftLeft(y, n)) == x + weight * y
  {
    OrAddsAbove(x, y, n);
    ShiftIsProduct(y, n);
  }

  /** The representation of socket options, as a number. */
  lemma OptionsAreWeighed(options: SocketOptions)
    requires RepresentableOptions(options)
    ensures OptionsAsRepr(options) ==
              Some((if options.noDelay.Some? then 1 else 0) + (if options.noDelay.Some? && options.noDelay.value then 2 else 0)
                   + (if options.lingerMillis.Some? then 4 else 0) + 8 * LingerLog(options) + 0x100 * Hops(options))
  {
    LingerIsWeighed(options);
    OptionsWordIsWeighed(options.noDelay.Some?, UnwrapOrFalse(options.noDelay), options.lingerMillis.Some?, LingerLog(options),
                         Hops(options));
  }

  lemma LingerIsWeighed(options: SocketOptions)
    requires RepresentableOptions(options)
    ensures LingerLog(options) < 32 && LingerAsRepr(options) == Some(ShiftLeft(LingerLog(options), 3))
  {
    WordsOfPow2();
    ShiftIsProduct(LingerLog(options), 3);
    if options.lingerMillis.Some? && options.lingerMillis.value > 0 {
      LogFits(options.lingerMillis.value);
      SetsAbove(0, LINGER_DATA, LingerLog(options));
    }
  }

  function FormVariant(form: MessageForm): nat {
    match form case Textual(_) => 0 case VariableBinary(_) => 1 case MmapBinary(_) => 2
  }

  lemma VariantIsWeighed(variant: nat, log: nat)
    requires variant < 4 && log < Pow2(5)
    ensures SetBits(variant, FORM_SIZE, log) == Some(variant + 4 * log)
  {
    WordsOfPow2();
    SetsAbove(variant, FORM_SIZE, log);
  }

  /** The representation of a message form, as a number. */
  lemma FormIsWeighed(form: MessageForm)
    requires IsPowerOfTwo(SizeOf(form))
    ensures FormAsRepr(form) == Some(FormVariant(form) + 4 * ILog2(SizeOf(form)))
  {
    LogFits(SizeOf(form));
    VariantIsWeighed(FormVariant(form), ILog2(SizeOf(form)));
  }

  // ---------- from words to configurations and back ----------

  const UNUSED: Range := Interval(60, 63)

  /** A strategy with no data leaves its data bits unset. */
  predicate CanonicalStrategy(repr: nat) {
    And(repr, 7) < 2 ==> ShiftRight(repr, 3) == 0
  }

  /** An option that is absent leaves its data bits unset. */
  predicate CanonicalOptions(repr: nat) {
    (Flag(repr, 1) ==> Flag(repr, 0)) && (GetBits(repr, LINGER_DATA) > 0 ==> Flag(repr, 2))
  }

  predicate Canonical(word: nat) {
    && GetBits(word, UNUSED) == 0
    && CanonicalStrategy(GetBits(word, RETRYING_STRATEGY))
    && CanonicalOptions(GetBits(word, SOCKET_OPTIONS))
  }

  lemma StrategyIsDecodedAs(repr: U16)
    requires StrategyFromRepr(repr).Some?
    ensures Variant(StrategyFromRepr(repr).value) == And(repr, 7)
    ensures Data(StrategyFromRepr(repr).value) == if And(repr, 7) < 2 then 0 else ShiftRight(repr, 3) % 0x100
  {
  }

  lemma StrategyReprSplits(repr: nat)
    requires repr < 0x800
    ensures And(repr, 7) < 8 && ShiftRight(repr, 3) < 0x100 && repr == And(repr, 7) + 8 * ShiftRight(repr, 3)
  {
    assert Pow2(3) == 8 by {
      WordsOfPow2();
    }
    JoinsSplit(repr, 3);
    StrategySplits(And(repr, 7), ShiftRight(repr, 3));
  }

  lemma SameIfNothingIsLost(code: nat, repr: nat, variant: nat, data: nat, n: nat)
    requires code == variant + 8 * data && repr == variant + 8 * n
    requires n < 0x100 && data == if variant < 2 then 0 else n % 0x100
    ensures code == repr <==> variant < 2 ==> n == 0
  {
  }

  lemma StrategyReprRoundTrip(repr: U16)
    requires repr < 0x800 && StrategyFromRepr(repr).Some?
    ensures StrategyAsRepr(StrategyFromRepr(repr).value) == repr <==> CanonicalStrategy(repr)
  {
    var strategy := StrategyFromRepr(repr).value;
    StrategyReprSplits(repr);
    StrategyIsDecodedAs(repr);
    StrategyIsCoded(strategy);
    SameIfNothingIsLost(StrategyAsRepr(strategy), repr, And(repr, 7), Data(strategy), ShiftRight(repr, 3));
  }

  lemma StrategyIsCoded(strategy: RetryingStrategy)
    ensures StrategyAsRepr(strategy) == Variant(strategy) + 8 * Data(strategy)
  {
    StrategyReprIs(strategy);
    StrategySplits(Variant(strategy), Data(strategy));
  }

  /** How the options read in a representation relate to it. */
  predicate DecodedAs(repr: nat, options: SocketOptions) {
    && RepresentableOptions(options)
    && (options.noDelay.Some? <==> Flag(repr, 0))
    && (UnwrapOrFalse(options.noDelay) <==> Flag(repr, 0) && Flag(repr, 1))
    && (options.lingerMillis.Some? <==> Flag(repr, 2))
    && LingerLog(options) == (if Flag(repr, 2) then GetBits(repr, LINGER_DATA) else 0)
    && Hops(options) == Octet(repr, 8)
  }

  lemma OptionsAreDecodedAs(repr: U32)
    ensures DecodedAs(repr, OptionsFromRepr(repr))
  {
    GetsAPowerOf2(repr, LINGER_DATA);
  }

  /** The bits of the options in a representation are those there, but those of data for an absent option. */
  lemma RestoredOptionBits(repr: nat, options: SocketOptions, i: nat)
    requires repr < 0x1_0000 && DecodedAs(repr, options)
    ensures OptionBit(options, i) <==>
              if i == 1 then Bit(repr, 0) && Bit(repr, 1)
              else if 3 <= i <= 7 then Bit(repr, 2) && Bit(repr, i)
              else Bit(repr, i)
  {
    FlagIsBit(repr, 0);
    FlagIsBit(repr, 1);
    FlagIsBit(repr, 2);
    if 3 <= i < 8 {
      BitOfGet(repr, LINGER_DATA, i - 3);
      BitOfZero(i - 3);
    } else if 8 <= i {
      RestoredHops(repr, i);
    }
  }

  lemma RestoredHops(repr: nat, i: nat)
    requires repr < 0x1_0000 && 8 <= i
    ensures Bit(Octet(repr, 8), i - 8) <==> Bit(repr, i)
  {
    BitOfOctet(repr, 8, i - 8);
    if 16 <= i {
      assert Pow2(16) == 0x1_0000 by {
        WordsOfPow2();
      }
      BitsOfFitting(repr, 16, i);
    }
  }

  lemma BitOfOctet(word: nat, n: nat, i: nat)
    ensures Bit(Octet(word, n), i) <==> i < 8 && Bit(word, n + i)
  {
    WordsOfPow2();
    var masked := And(word, ShiftLeft(0xFF, n));
    forall i: nat ensures Bit(ShiftRight(masked, n), i) <==> i < 8 && Bit(word, n + i) {
      BitOfShiftRight(masked, n, i);
      BitOfAnd(word, ShiftLeft(0xFF, n), n + i);
      BitOfShiftLeft(0xFF, n, n + i);
      BitOfMask(8, i);
    }
    FitsItsBits(ShiftRight(masked, n), 8);
  }

  lemma OptionsReprRoundTrip(repr: U32)
    requires repr < 0x1_0000
    ensures RepresentableOptions(OptionsFromRepr(repr))
    ensures OptionsAsRepr(OptionsFromRepr(repr)) == Some(repr) <==> CanonicalOptions(repr)
  {
    var options := OptionsFromRepr(repr);
    OptionsAreDecodedAs(repr);
    ReprHoldsOptions(options);
    var repr' := OptionsAsRepr(options).value;
    forall i: nat
      ensures Bit(repr', i) <==> if i == 1 then Bit(repr, 0) && Bit(repr, 1)
                                 else if 3 <= i <= 7 then Bit(repr, 2) && Bit(repr, i)
                                 else Bit(repr, i)
    {
      RestoredOptionBits(repr, options, i);
    }
    CanonicalOptionBits(repr, repr');
  }

  lemma CanonicalOptionBits(repr: nat, repr': nat)
    requires forall i: nat :: Bit(repr', i) <==> if i == 1 then Bit(repr, 0) && Bit(repr, 1)
                                                 else if 3 <= i <= 7 then Bit(repr, 2) && Bit(repr, i)
                                                 else Bit(repr, i)
    ensures repr' == repr <==> CanonicalOptions(repr)
  {
    FlagIsBit(repr, 0);
    FlagIsBit(repr, 1);
    FlagIsBit(repr, 2);
    var data := GetBits(repr, LINGER_DATA);
    forall i: nat ensures Bit(data, i) <==> i <= 4 && Bit(repr, 3 + i) {
      BitOfGet(repr, LINGER_DATA, i);
    }
    if CanonicalOptions(repr) {
      forall i: nat ensures Bit(repr', i) <==> Bit(repr, i) {
        if 3 <= i <= 7 && !Bit(repr, 2) {
          BitOfZero(i - 3);
          assert !Bit(data, i - 3);
        }
      }
      SameBits(repr', repr);
    } else if repr' == repr && !Bit(repr, 2) {
      forall i: nat ensures Bit(data, i) <==> Bit(0, i) {
        BitOfZero(i);
        assert i <= 4 ==> !Bit(repr, 3 + i);
      }
      SameBits(data, 0);
    }
  }

  /** Bits out of every field stay unset. */
  lemma {:induction false} PacksNothingElse(layout: seq<Range>, fields: seq<Option<nat>>, n: nat, other: Range)
    requires n <= |fields| == |layout| && NonOverlapping(layout) && Pack(layout, fields, n).Some?
    requires forall k | 0 <= k < n :: Disjoint(layout[k], other)
    ensures GetBits(Pack(layout, fields, n).value, other) == 0
  {
    PackedIsUnpacked(layout, fields, n);
    if n > 0 {
      PacksNothingElse(layout, fields, n - 1, other);
      PackedIsUnpacked(layout, fields, n - 1);
      SetsNothingElse(Pack(layout, fields, n - 1).value, layout[n - 1], fields[n - 1].value, other);
    } else {
      forall i: nat ensures Bit(GetBits(0, other), i) <==> Bit(0, i) {
        BitOfGet(0, other, i);
        BitOfZero(i);
        BitOfZero(other.start + i);
      }
      SameBits(GetBits(0, other), 0);
    }
  }

  /** Words with the same fields, and the same unused bits, are the same. */
  lemma SameFields(word: nat, word': nat)
    requires word < Pow2(WORD) && word' < Pow2(WORD) && GetBits(word, UNUSED) == GetBits(word', UNUSED)
    requires forall k | 0 <= k < |LAYOUT| :: GetBits(word, LAYOUT[k]) == GetBits(word', LAYOUT[k])
    ensures word == word'
  {
    forall i: nat ensures Bit(word, i) <==> Bit(word', i) {
      if WORD <= i {
        BitsOfFitting(word, WORD, i);
        BitsOfFitting(word', WORD, i);
      } else {
        var k := FieldOf(i);
        SameBitOfRange(word, word', if k == |LAYOUT| then UNUSED else LAYOUT[k], i);
      }
    }
    SameBits(word, word');
  }

  lemma SameBitOfRange(word: nat, word': nat, bits: Range, i: nat)
    requires GetBits(word, bits) == GetBits(word', bits) && bits.start <= i <= bits.end
    ensures Bit(word, i) <==> Bit(word', i)
  {
    BitOfGet(word, bits, i - bits.start);
    BitOfGet(word', bits, i - bits.start);
  }

  /** The field a bit belongs to. */
  function FieldOf(i: nat): (k: nat)
    requires i < WORD
    ensures if k < |LAYOUT| then LAYOUT[k].start <= i <= LAYOUT[k].end else k == |LAYOUT| && UNUSED.start <= i <= UNUSED.end
  {
    if i < 5 then 0 else if i < 10 then 1 else if i < 15 then 2 else if i < 20 then 3
    else if i < 24 then 4 else if i < 35 then 5 else if i < 51 then 6 else if i < 60 then 7 else 8
  }

  lemma PackedLeavesUnused(config: ConstConfig)
    requires Packed(config).Some?
    ensures GetBits(Packed(config).value, UNUSED) == 0
  {
    LayoutIsSound();
    PacksNothingElse(LAYOUT, Fields(config), |LAYOUT|, UNUSED);
  }

  lemma HeldInOneWay(word: nat, word': nat, config: ConstConfig)
    requires Holds(word, config) && Holds(word', config) && GetBits(word, UNUSED) == GetBits(word', UNUSED)
    ensures word == word'
  {
    forall k | 0 <= k < |LAYOUT| ensures GetBits(word, LAYOUT[k]) == GetBits(word', LAYOUT[k]) {
      HeldField(word, config, k);
      HeldField(word', config, k);
    }
    SameFields(word, word');
  }

  /** A configuration is packed in the one word that holds it and leaves the unused bits unset. */
  lemma PackedInOneWay(config: ConstConfig, word: nat)
    requires Packable(config) && word < Pow2(WORD)
    ensures Packed(config) == Some(word) <==> Holds(word, config) && GetBits(word, UNUSED) == 0
  {
    PackedHolds(config);
    PackedLeavesUnused(config);
    if Holds(word, config) && GetBits(word, UNUSED) == 0 {
      HeldInOneWay(word, Packed(config).value, config);
    }
  }

  lemma UnpackedSizes(word: nat, k: nat)
    requires From(word).Some? && k < 5
    ensures FieldIsHeld(word, From(word).value, k)
  {
    SizesAreHeld(word, From(word).value, k);
  }

  lemma SizesAreHeld(word: nat, config: ConstConfig, k: nat)
    requires k < 5
    requires config.senderChannelSize == GetPowerOf2(word, SENDER_CHANNEL_SIZE)
    requires config.receiverChannelSize == GetPowerOf2(word, RECEIVER_CHANNEL_SIZE)
    requires config.senderMaxMsgSize == GetPowerOf2(word, SENDER_MAX_MSG_SIZE)
    requires config.receiverMaxMsgSize == GetPowerOf2(word, RECEIVER_MAX_MSG_SIZE)
    requires config.flushTimeoutMillis == GetPowerOf2(word, FLUSH_TIMEOUT_MILLIS)
    ensures FieldIsHeld(word, config, k)
  {
    GetsAPowerOf2(word, LAYOUT[k]);
  }

  /** A word that holds a configuration comes back from it if, and only if, it is canonical. */
  lemma WordRoundTrip(word: nat)
    requires word < Pow2(WORD) && From(word).Some?
    ensures Packable(From(word).value)
    ensures Packed(From(word).value) == Some(word) <==> Canonical(word)
  {
    var config := From(word).value;
    UnpackedIsPackable(word);
    PackedInOneWay(config, word);
    UnpackedIsHeld(word);
  }

  lemma UnpackedIsPackable(word: nat)
    requires From(word).Some?
    ensures Packable(From(word).value)
  {
    GetsAPowerOf2(word, SENDER_CHANNEL_SIZE);
    GetsAPowerOf2(word, RECEIVER_CHANNEL_SIZE);
    GetsAPowerOf2(word, SENDER_MAX_MSG_SIZE);
    GetsAPowerOf2(word, RECEIVER_MAX_MSG_SIZE);
    GetsAPowerOf2(word, FLUSH_TIMEOUT_MILLIS);
    OptionsAreDecodedAs(SocketOptionsBits(word));
    GetFits(word, EXECUTOR_INSTRUMENTS);
  }

  lemma UnpackedIsHeld(word: nat)
    requires word < Pow2(WORD) && From(word).Some?
    ensures Holds(word, From(word).value)
       <==> && CanonicalStrategy(GetBits(word, RETRYING_STRATEGY))
            && CanonicalOptions(GetBits(word, SOCKET_OPTIONS))
  {
    forall k | 0 <= k < 5 ensures FieldIsHeld(word, From(word).value, k) {
      UnpackedSizes(word, k);
    }
    HeldIfCanonical(word, From(word).value);
  }

  predicate FieldIsHeld(word: nat, config: ConstConfig, k: nat)
    requires k < |LAYOUT|
  {
    Field(config, k) == Some(GetBits(word, LAYOUT[k]))
  }

  lemma HeldByFields(word: nat, config: ConstConfig)
    requires word < Pow2(WORD)
    ensures Holds(word, config) <==> forall k | 0 <= k < |LAYOUT| :: FieldIsHeld(word, config, k)
  {
    if forall k | 0 <= k < |LAYOUT| :: FieldIsHeld(word, config, k) {
      forall k | 0 <= k < |LAYOUT| ensures Fields(config)[k] == Some(GetBits(word, LAYOUT[k])) {
        assert FieldIsHeld(word, config, k);
      }
    } else if Holds(word, config) {
      forall k | 0 <= k < |LAYOUT| ensures FieldIsHeld(word, config, k) {
        HeldField(word, config, k);
      }
    }
  }

  lemma HeldIfCanonical(word: nat, config: ConstConfig)
    requires word < Pow2(WORD) && forall k | 0 <= k < 5 :: FieldIsHeld(word, config, k)
    requires StrategyFromRepr(RetryingStrategyBits(word)) == Some(config.retryingStrategy)
    requires OptionsFromRepr(SocketOptionsBits(word)) == config.socketOptions
    requires GetBits(word, EXECUTOR_INSTRUMENTS) == config.executorInstruments
    ensures Holds(word, config) <==> && CanonicalStrategy(GetBits(word, RETRYING_STRATEGY))
                                     && CanonicalOptions(GetBits(word, SOCKET_OPTIONS))
  {
    StrategyIsHeld(word, config);
    OptionsAreHeld(word, config);
    HeldIfRestIs(word, config, CanonicalStrategy(GetBits(word, RETRYING_STRATEGY)), CanonicalOptions(GetBits(word, SOCKET_OPTIONS)));
  }

  lemma HeldIfRestIs(word: nat, config: ConstConfig, strategyIsHeld: bool, optionsAreHeld: bool)
    requires word < Pow2(WORD) && forall k | 0 <= k < 5 :: FieldIsHeld(word, config, k)
    requires FieldIsHeld(word, config, 5) <==> strategyIsHeld
    requires FieldIsHeld(word, config, 6) <==> optionsAreHeld
    requires GetBits(word, EXECUTOR_INSTRUMENTS) == config.executorInstruments
    ensures Holds(word, config) <==> strategyIsHeld && optionsAreHeld
  {
    assert FieldIsHeld(word, config, 7);
    if strategyIsHeld && optionsAreHeld {
      forall k | 0 <= k < |LAYOUT| ensures FieldIsHeld(word, config, k) {
        assert k < 5 || k == 5 || k == 6 || k == 7;
      }
    }
    HeldByFields(word, config);
  }

  lemma StrategyIsHeld(word: nat, config: ConstConfig)
    requires StrategyFromRepr(RetryingStrategyBits(word)) == Some(config.retryingStrategy)
    ensures FieldIsHeld(word, config, 5) <==> CanonicalStrategy(GetBits(word, RETRYING_STRATEGY))
  {
    NestedReprsFit(word);
    StrategyReprRoundTrip(RetryingStrategyBits(word));
  }

  lemma OptionsAreHeld(word: nat, config: ConstConfig)
    requires OptionsFromRepr(SocketOptionsBits(word)) == config.socketOptions
    ensures FieldIsHeld(word, config, 6) <==> CanonicalOptions(GetBits(word, SOCKET_OPTIONS))
  {
    NestedReprsFit(word);
    OptionsReprRoundTrip(SocketOptionsBits(word));
  }

  lemma NestedReprsFit(word: nat)
    ensures GetBits(word, RETRYING_STRATEGY) < 0x800 && GetBits(word, SOCKET_OPTIONS) < 0x1_0000
  {
    GetFits(word, RETRYING_STRATEGY);
    GetFits(word, SOCKET_OPTIONS);
    WordsOfPow2();
    assert Pow2(11) == 2 * Pow2(10) == 4 * Pow2(9) == 8 * Pow2(8);
  }
}
