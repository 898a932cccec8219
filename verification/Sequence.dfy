/** Translation of TCP sequence numbers between the attacker's and the high-interaction honeypot's spaces. */
module Sequence {
  import opened Words

  /** The C expression `a + b` on 32 bits, which wraps around. */
  function Add(a: U32, b: U32): U32 {
    if a + b < 0x1_0000_0000 then a + b else a + b - 0x1_0000_0000
  }

  /** The C expression `~a`. */
  function Not(a: U32): U32 {
    0xFFFF_FFFF - a
  }

  /** The distance from `b` up to `a` modulo 2^32, as section 3.3 of RFC 793 compares sequence numbers. */
  function Offset(a: U32, b: U32): U32 {
    if a >= b then a - b else a - b + 0x1_0000_0000
  }

  lemma WrapsModulo(a: U32, b: U32)
    ensures Add(a, b) == (a + b) % 0x1_0000_0000
    ensures Offset(a, b) == (a - b) % 0x1_0000_0000
  {
  }

  /** `delta`, fixed by the SYN of the high-interaction honeypot. */
  function Delta(hihSyn: U32, lihSyn: U32): U32 {
    Add(Add(Not(hihSyn), 1), lihSyn)
  }

  /** What `forward_hih2ext` does to a sequence number. */
  function ToAttacker(seqno: U32, delta: U32): U32 {
    Add(seqno, delta)
  }

  /** What `forward_ext2hih` does to an acknowledgement and `define_expected_data` to a recorded sequence number. */
  function ToHoneypot(seqno: U32, delta: U32): U32 {
    Add(Add(seqno, Not(delta)), 1)
  }

  /** The honeypot's byte number k is seen by the attacker as byte number k of the conversation it started. */
  lemma OffsetPreserved(hihSyn: U32, lihSyn: U32, seqno: U32)
    ensures Offset(ToAttacker(seqno, Delta(hihSyn, lihSyn)), lihSyn) == Offset(seqno, hihSyn)
    ensures ToAttacker(hihSyn, Delta(hihSyn, lihSyn)) == lihSyn
  {
  }

  lemma DeltaIsDifference(hihSyn: U32, lihSyn: U32)
    ensures Delta(hihSyn, lihSyn) == Offset(lihSyn, hihSyn)
  {
  }

  /** Acknowledgements undo exactly what was done to sequence numbers, and the other way round. */
  lemma TranslationsInverse(seqno: U32, delta: U32)
    ensures ToHoneypot(ToAttacker(seqno, delta), delta) == seqno
    ensures ToAttacker(ToHoneypot(seqno, delta), delta) == seqno
  {
  }

  /** The replay gate accepts a sequence number iff it is as far from its SYN as the recorded one was. */
  lemma GateComparesOffsets(hihSyn: U32, lihSyn: U32, hihSeq: U32, lihSeq: U32)
    ensures hihSeq == ToHoneypot(lihSeq, Delta(hihSyn, lihSyn)) <==> Offset(hihSeq, hihSyn) == Offset(lihSeq, lihSyn)
  {
    OffsetPreserved(hihSyn, lihSyn, hihSeq);
    TranslationsInverse(hihSeq, Delta(hihSyn, lihSyn));
    TranslationsInverse(lihSeq, Delta(hihSyn, lihSyn));
    OffsetInjective(ToAttacker(hihSeq, Delta(hihSyn, lihSyn)), lihSeq, lihSyn);
  }

  lemma OffsetInjective(a: U32, b: U32, base: U32)
    ensures Offset(a, base) == Offset(b, base) <==> a == b
  {
  }

  /** Different distances shift a number to different places. */
  lemma ShiftsDiffer(seqno: U32, a: U32, b: U32)
    ensures ToHoneypot(seqno, a) == ToHoneypot(seqno, b) <==> a == b
  {
  }

  /** Two SYNs of the high-interaction honeypot give the same distance only if they are the same. */
  lemma DeltaInjective(a: U32, b: U32, lihSyn: U32)
    ensures Delta(a, lihSyn) == Delta(b, lihSyn) <==> a == b
    ensures Delta(a, lihSyn) == 0 <==> a == lihSyn
  {
  }
}
