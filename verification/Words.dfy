/** Sixteen-bit words as numbers: what testing, clearing, dropping and setting the top bit with a mask comes to,
    value by value. */
module Words {

  lemma Lowered(w: bv16)
    requires w >= 0x8000
    ensures (w - 0x8000) as int == w as int - 0x8000
  {
  }

  lemma Raised(w: bv16)
    requires w < 0x8000
    ensures (w + 0x8000) as int == w as int + 0x8000
  {
  }

  lemma LargeMasks(w: bv16)
    requires w >= 0x8000
    ensures w & 0x7FFF == w - 0x8000 && w & 0x8000 != 0 && w | 0x8000 == w
  {
  }

  lemma SmallMasks(w: bv16)
    requires w < 0x8000
    ensures w & 0x7FFF == w && w & 0x8000 == 0 && w | 0x8000 == w + 0x8000
  {
  }

  lemma ClearMask(w: bv16)
    ensures w & !0x8000 == w & 0x7FFF
  {
  }

  function Value(w: bv16): (v: nat)
    ensures v < 0x1_0000
  {
    w as nat
  }

  lemma LargeWord(w: bv16)
    requires w >= 0x8000
    ensures Value(w) >= 0x8000 && Value(w - 0x8000) == Value(w) - 0x8000
  {
    Lowered(w);
  }

  lemma SmallWord(w: bv16)
    requires w < 0x8000
    ensures Value(w) < 0x8000 && Value(w + 0x8000) == Value(w) + 0x8000
  {
    Raised(w);
    assert Value(w + 0x8000) < 0x1_0000;
  }

  /** What the masks of the top bit do to a word, in numbers. */
  lemma Masks(w: bv16)
    ensures w & 0x8000 != 0 <==> Value(w) >= 0x8000
    ensures Value(w & 0x7FFF) == Value(w & !0x8000) == Value(w) % 0x8000
    ensures Value(w | 0x8000) == if Value(w) >= 0x8000 then Value(w) else Value(w) + 0x8000
  {
    hide Value;
    ClearMask(w);
    if w >= 0x8000 {
      LargeMasks(w);
      LargeWord(w);
    } else {
      SmallMasks(w);
      SmallWord(w);
    }
  }
}
