/** The tagged head of a lock-free stack: a 48-bit address and a 16-bit tag in one word. */
module TaggedWord {
  const PTR_MASK: bv64 := 0x0000_FFFF_FFFF_FFFF

  /** tagged_make. */
  function Make(ptr: bv64, tag: bv16): bv64 {
    ((tag as bv64) << 48) | (ptr & PTR_MASK)
  }

  function Address(word: bv64): bv64 { word & PTR_MASK }

  function Tag(word: bv64): bv16 { (word >> 48) as bv16 }

  /** Packing and unpacking: the tag always comes back, the address exactly when it is below 2^48. */
  lemma RoundTrip(ptr: bv64, tag: bv16)
    ensures Tag(Make(ptr, tag)) == tag
    ensures Address(Make(ptr, tag)) == ptr <==> ptr <= PTR_MASK
  {
  }

  /** Every word is a packed pair, so comparing words is comparing pairs. */
  lemma WordIsPair(word: bv64)
    ensures Make(Address(word), Tag(word)) == word && Address(word) <= PTR_MASK
  {
  }
}
