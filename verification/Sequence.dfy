/** Frame sequence classification: serial-number arithmetic over u32. */
module Sequence {
  import opened Machine

  datatype SequenceClassification =
    | InOrder
    | Gap(missingFrames: U32)
    | LateOrDuplicate

  function ClassifySequence(lastSeen: U32, received: U32): SequenceClassification
  {
    var advance := WrapSub(received, lastSeen);
    if advance == 1 then InOrder
    else if advance > 1 && advance < HALF_SEQUENCE_RANGE then Gap(advance - 1)
    else LateOrDuplicate
  }

  /** What the classification means on unbounded indices: whenever the true
      indices differ by at most half the circle, the wrapped comparison recovers
      their exact order and the exact number of skipped frames. The distance
      2^31 itself, which RFC 1982 section 3.2 leaves undefined, counts as late
      from either side. */
  lemma ClassifyIsTrueOrder(seen: int, received: int)
    requires -HALF_SEQUENCE_RANGE <= received - seen <= HALF_SEQUENCE_RANGE
    ensures ClassifySequence(Wrap(seen), Wrap(received)) ==
            if received == seen + 1 then InOrder
            else if seen + 1 < received < seen + HALF_SEQUENCE_RANGE then Gap(received - seen - 1)
            else LateOrDuplicate
  {
    WrapDistance(received, seen);
  }

  /** Exactly one of two distinct labels supersedes the other, except at
      distance 2^31 where neither does. */
  lemma ClassifyIsAntisymmetric(a: U32, b: U32)
    requires a != b
    ensures (ClassifySequence(a, b) == LateOrDuplicate && ClassifySequence(b, a) == LateOrDuplicate)
            <==> WrapSub(a, b) == HALF_SEQUENCE_RANGE
    ensures ClassifySequence(a, b) == LateOrDuplicate || ClassifySequence(b, a) == LateOrDuplicate
  {
  }
}
