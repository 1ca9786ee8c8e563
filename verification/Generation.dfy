/** The 32-bit slot generation (include/flow_table.h): every publication bumps it, and
    the value 0 is skipped when the counter wraps. */
module Generation {
  import opened FlowTypes

  /** Number of distinct generations a published slot can carry. */
  const GEN_PERIOD: nat := 0xFFFF_FFFF

  /** One atomic add-fetch of 1 on a 32-bit word. */
  function AddFetch(g: u32): u32 {
    (g + 1) % U32_MODULUS
  }

  /** flow_hot_generation_next as a function of the old generation. */
  function NextGen(g: u32): u32 {
    var bumped := AddFetch(g);
    if bumped == 0 then AddFetch(bumped) else bumped
  }

  /** The generation of a zeroed slot after n publications. */
  function GenAfter(n: nat): u32 {
    if n == 0 then 0 else NextGen(GenAfter(n - 1))
  }

  /** A published slot cycles through 1 .. 2^32-1 and never carries 0. */
  lemma {:induction false} GenAfterClosedForm(n: nat)
    requires n >= 1
    ensures GenAfter(n) == (n - 1) % GEN_PERIOD + 1
    ensures GenAfter(n) != 0
  {
    if n == 1 {
    } else {
      GenAfterClosedForm(n - 1);
      ModStep(n - 2);
    }
  }

  lemma ModStep(a: nat)
    ensures (a + 1) % GEN_PERIOD == if a % GEN_PERIOD == GEN_PERIOD - 1 then 0 else a % GEN_PERIOD + 1
  {
  }

  /** Two publications of one slot share a stamp exactly when their distance is a
      multiple of 2^32-1. */
  lemma SameStampIff(i: nat, j: nat)
    requires 1 <= i <= j
    ensures GenAfter(i) == GenAfter(j) <==> (j - i) % GEN_PERIOD == 0
  {
    SameRemainder(i - 1, j - 1);
    var distance := (j - 1) - (i - 1);
    assert distance == j - i;
    assert GenAfter(i) == GenAfter(j) <==> (i - 1) % GEN_PERIOD == (j - 1) % GEN_PERIOD by {
      GenAfterClosedForm(i);
      GenAfterClosedForm(j);
    }
  }

  lemma SameRemainder(a: nat, b: nat)
    requires a <= b
    ensures a % GEN_PERIOD == b % GEN_PERIOD <==> (b - a) % GEN_PERIOD == 0
  {
    var qa, ra := a / GEN_PERIOD, a % GEN_PERIOD;
    var qb, rb := b / GEN_PERIOD, b % GEN_PERIOD;
    assert b - a == (qb - qa) * GEN_PERIOD + (rb - ra);
  }

  /** Within one period a matching stamp names one publication only. */
  lemma StampIsUnique(i: nat, j: nat)
    requires 1 <= i <= j < i + GEN_PERIOD
    ensures GenAfter(i) == GenAfter(j) <==> i == j
  {
    SameStampIff(i, j);
  }

  /** flow_hot_generation_next on the slot array: only the generation of slot i moves. */
  method GenerationNext(hot: array<Hot>, i: nat) returns (gen: u32)
    requires i < hot.Length
    modifies hot
    ensures gen == NextGen(old(hot[i].gen))
    ensures hot[..] == old(hot[..])[i := old(hot[i]).(gen := gen)]
  {
    gen := AddFetch(hot[i].gen);
    hot[i] := hot[i].(gen := gen);
    if gen == 0 {
      gen := AddFetch(hot[i].gen);
      hot[i] := hot[i].(gen := gen);
    }
  }
}
