/**
 * Bit-field facts about 32-bit register words: single bits, the 3-bit function-select
 * fields, the 2-bit pull fields and GPPUD's two control bits, each stated through a small
 * predicate so that callers reason about the predicate and not about the bits.
 */
module GpioBits {

  /** Bit k of a word is set. */
  predicate BitSet(w: bv32, k: bv32)
    requires k < 32
  {
    (w >> k) & 1 == 1
  }

  /** Two words agree on every bit except bit k. */
  predicate SameExceptBit(w: bv32, v: bv32, k: bv32)
    requires k < 32
  {
    w & !((1 as bv32) << k) == v & !((1 as bv32) << k)
  }

  /** v is w with bit k set. */
  predicate BitRaised(v: bv32, w: bv32, k: bv32)
    requires k < 32
  {
    BitSet(v, k) && SameExceptBit(v, w, k)
  }

  /** v is w with bit k cleared. */
  predicate BitLowered(v: bv32, w: bv32, k: bv32)
    requires k < 32
  {
    !BitSet(v, k) && SameExceptBit(v, w, k)
  }

  /** The 3-bit field of a word at bit s holds c. */
  predicate Field3Is(w: bv32, s: bv32, c: bv32)
    requires s <= 29
  {
    (w >> s) & 7 == c
  }

  /** Two words agree outside the 3-bit field at bit s. */
  predicate SameExcept3(w: bv32, v: bv32, s: bv32)
    requires s <= 29
  {
    w & !((7 as bv32) << s) == v & !((7 as bv32) << s)
  }

  /** v is w with its 3-bit field at bit s replaced by c. */
  predicate Field3Set(v: bv32, w: bv32, s: bv32, c: bv32)
    requires s <= 29
  {
    Field3Is(v, s, c) && SameExcept3(v, w, s)
  }

  /** The 2-bit field of a word at bit s holds c. */
  predicate Field2Is(w: bv32, s: bv32, c: bv32)
    requires s <= 30
  {
    (w >> s) & 3 == c
  }

  /** Two words agree outside the 2-bit field at bit s. */
  predicate SameExcept2(w: bv32, v: bv32, s: bv32)
    requires s <= 30
  {
    w & !((3 as bv32) << s) == v & !((3 as bv32) << s)
  }

  /** v is w with its 2-bit field at bit s replaced by c. */
  predicate Field2Set(v: bv32, w: bv32, s: bv32, c: bv32)
    requires s <= 30
  {
    Field2Is(v, s, c) && SameExcept2(v, w, s)
  }

  /** A word with the 3-bit field at bit s cleared and then or-ed with code. */
  function SetField3(word: bv32, s: bv32, code: bv32): bv32
    requires s <= 29
  {
    (word & !((7 as bv32) << s)) | (code << s)
  }

  lemma SetField3Effect(word: bv32, s: bv32, code: bv32)
    requires s <= 29 && code <= 7
    ensures Field3Set(SetField3(word, s, code), word, s, code)
  {
  }

  /** A word with the 2-bit field at bit s cleared and then or-ed with code. */
  function SetField2(word: bv32, s: bv32, code: bv32): bv32
    requires s <= 30
  {
    (word & !((3 as bv32) << s)) | (code << s)
  }

  lemma SetField2Effect(word: bv32, s: bv32, code: bv32)
    requires s <= 30 && code <= 3
    ensures Field2Set(SetField2(word, s, code), word, s, code)
  {
  }

  /** A word with bit k or-ed in. */
  function SetBit(w: bv32, k: bv32): bv32
    requires k < 32
  {
    w | ((1 as bv32) << k)
  }

  /** A word and-ed with the complement of bit k. */
  function ClearBit(w: bv32, k: bv32): bv32
    requires k < 32
  {
    w & !((1 as bv32) << k)
  }

  /** Or-ing in bit k raises it. */
  lemma SetBitEffect(w: bv32, k: bv32)
    requires k < 32
    ensures BitRaised(SetBit(w, k), w, k)
  {
  }

  /** And-ing with the complement of bit k lowers it. */
  lemma ClearBitEffect(w: bv32, k: bv32)
    requires k < 32
    ensures BitLowered(ClearBit(w, k), w, k)
  {
  }

  /** A pulse on bit k: raising it and lowering it again leaves the word with only that bit cleared. */
  lemma BitPulse(w: bv32, k: bv32)
    requires k < 32
    ensures BitLowered(ClearBit(SetBit(w, k), k), w, k)
  {
    ClearAfterSet(w, k);
    ClearBitEffect(w, k);
  }

  /** Clearing bit k after setting it forgets the set. */
  lemma ClearAfterSet(w: bv32, k: bv32)
    requires k < 32
    ensures ClearBit(SetBit(w, k), k) == ClearBit(w, k)
  {
  }

  /** v is g with GPPUD's two control bits set to code. */
  predicate ControlIs(v: bv32, g: bv32, code: bv32) {
    v & 3 == code && v & !3 == g & !3
  }

  /** GPPUD with its control bits cleared. */
  function ClearControl(g: bv32): bv32 {
    g & !3
  }

  /** GPPUD with a control code or-ed in. */
  function OrControl(g: bv32, code: bv32): bv32 {
    g | code
  }

  /** Clearing GPPUD's control bits and or-ing in a code sets them to the code and keeps the others. */
  lemma ControlSet(g: bv32, code: bv32)
    requires code <= 3
    ensures ControlIs(OrControl(ClearControl(g), code), g, code)
  {
  }

  /** Clearing the control bits again restores GPPUD's other bits with no signal. */
  lemma ControlCleared(g: bv32, code: bv32)
    requires code <= 3
    ensures ControlIs(ClearControl(OrControl(ClearControl(g), code)), g, 0)
  {
  }
}
