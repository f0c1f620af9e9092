/** Products written as sums, which keeps the proofs about them linear. */
module Spans {

  /** cnt times size. */
  function Span(size: nat, cnt: nat): nat {
    if cnt == 0 then 0 else Span(size, cnt - 1) + size
  }

  lemma {:induction false} SpanIsProduct(size: nat, cnt: nat)
    ensures Span(size, cnt) == cnt * size
  {
    if cnt > 0 {
      SpanIsProduct(size, cnt - 1);
      assert (cnt - 1) * size + size == cnt * size;
    }
  }

  lemma {:induction false} SpanOfSum(size: nat, a: nat, b: nat)
    ensures Span(size, a + b) == Span(size, a) + Span(size, b)
  {
    if b > 0 {
      SpanOfSum(size, a, b - 1);
    }
  }
}
