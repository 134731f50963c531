/** The fee cap of a deployment transaction against the base-fee rule of EIP-1559. */
module Fees {

  /** A block's gas use and its gas target; a block uses at most twice its target. */
  datatype Block = Block(used: nat, target: nat)

  predicate Possible(b: Block) {
    b.target > 0 && b.used <= 2 * b.target
  }

  function Max(a: nat, b: nat): nat {
    if a < b then b else a
  }

  /** base * part / whole, never more than base. */
  function Share(base: nat, part: nat, whole: nat): (r: nat)
    requires part <= whole && whole > 0
    ensures r <= base
  {
    ShareAtMost(base, part, whole);
    base * part / whole
  }

  lemma ProductGrows(a: nat, b: nat, c: nat)
    requires a <= b
    ensures c * a <= c * b && a * c <= b * c
  {
  }

  lemma ShareAtMost(base: nat, part: nat, whole: nat)
    requires part <= whole && whole > 0
    ensures base * part / whole <= base
  {
    ProductGrows(part, whole, base);
    QuotientAtMost(base * part, base, whole);
  }

  lemma QuotientAtMost(x: nat, base: nat, whole: nat)
    requires x <= base * whole && whole > 0
    ensures x / whole <= base
  {
    var q := x / whole;
    assert x == whole * q + x % whole;
    if q > base {
      ProductGrows(base + 1, q, whole);
    }
  }

  /** The next block's base fee (EIP-1559, "Specification"). */
  function NextBaseFee(base: nat, b: Block): nat
    requires Possible(b)
  {
    if b.used == b.target then base
    else if b.used > b.target then base + Max(Share(base, b.used - b.target, b.target) / 8, 1)
    else base - Share(base, b.target - b.used, b.target) / 8
  }

  function BaseFeeAfter(base: nat, blocks: seq<Block>): nat
    requires forall i :: 0 <= i < |blocks| ==> Possible(blocks[i])
  {
    if blocks == [] then base else NextBaseFee(BaseFeeAfter(base, blocks[..|blocks| - 1]), blocks[|blocks| - 1])
  }

  /** The cap a dynamic-fee transaction is given. */
  function FeeCap(base: nat, tip: nat): nat {
    2 * base + tip
  }

  /** What the block producer is paid per gas: the tip, as far as the cap leaves room for it. */
  function PriorityFee(tip: nat, cap: nat, base: nat): int {
    if cap - base < tip then cap - base else tip
  }

  /** The full tip is paid exactly as long as the base fee has not more than doubled. */
  lemma PaysTipExactlyUpToDouble(base: nat, tip: nat, later: nat)
    ensures PriorityFee(tip, FeeCap(base, tip), later) == tip <==> later <= 2 * base
    ensures later > 2 * base ==> PriorityFee(tip, FeeCap(base, tip), later) == 2 * base + tip - later
  {
  }

  /** The most a base fee can rise in one block. */
  function Up(base: nat): nat {
    base + Max(base / 8, 1)
  }

  function UpBy(base: nat, k: nat): nat {
    if k == 0 then base else Up(UpBy(base, k - 1))
  }

  lemma RisesAtMost(base: nat, b: Block)
    requires Possible(b)
    ensures NextBaseFee(base, b) <= Up(base)
  {
    if b.used > b.target {
      assert Share(base, b.used - b.target, b.target) <= base;
    }
  }

  lemma {:induction false} BaseFeeAtMost(base: nat, blocks: seq<Block>)
    requires forall i :: 0 <= i < |blocks| ==> Possible(blocks[i])
    ensures BaseFeeAfter(base, blocks) <= UpBy(base, |blocks|)
    decreases |blocks|
  {
    if blocks != [] {
      var front := blocks[..|blocks| - 1];
      BaseFeeAtMost(base, front);
      RisesAtMost(BaseFeeAfter(base, front), blocks[|blocks| - 1]);
    }
  }

  /** From 5 wei on, five rises at most double the base fee. */
  lemma FiveRisesAtMostDouble(base: nat)
    requires base >= 5
    ensures UpBy(base, 5) <= 2 * base
  {
    var x1, x2, x3, x4 := Up(base), Up(Up(base)), Up(Up(Up(base))), Up(Up(Up(Up(base))));
    assert UpBy(base, 1) == x1 && UpBy(base, 2) == x2 && UpBy(base, 3) == x3 && UpBy(base, 4) == x4;
    if base >= 8 {
      assert 8 * x1 <= 9 * base && 8 * x2 <= 9 * x1 && 8 * x3 <= 9 * x2 && 8 * x4 <= 9 * x3;
      assert 8 * Up(x4) <= 9 * x4;
    }
  }

  predicate FiveBlocks(blocks: seq<Block>) {
    |blocks| == 5 && forall i :: 0 <= i < |blocks| ==> Possible(blocks[i])
  }

  ghost predicate TipSafe(base: nat, tip: nat) {
    forall blocks :: FiveBlocks(blocks) ==>
      PriorityFee(tip, FeeCap(base, tip), BaseFeeAfter(base, blocks)) == tip
  }

  function FullBlocks(k: nat): seq<Block> {
    seq(k, i => Block(2, 1))
  }

  lemma {:induction false} FullBlocksRaise(base: nat, k: nat)
    requires base + k <= 9
    ensures BaseFeeAfter(base, FullBlocks(k)) == base + k
  {
    if k > 0 {
      FullBlocksRaise(base, k - 1);
      assert FullBlocks(k)[..k - 1] == FullBlocks(k - 1);
      assert (base + k - 1) * (2 - 1) / 1 == base + k - 1;
    }
  }

  /**
   The cap is at least the tip; and it still pays the full tip after any five blocks
   if and only if the base fee it was computed from is 5 wei or more.
   */
  lemma FeeCapCoversFiveBlocks(base: nat, tip: nat)
    ensures FeeCap(base, tip) >= tip
    ensures TipSafe(base, tip) <==> base >= 5
  {
    if base >= 5 {
      FiveRisesAtMostDouble(base);
      forall blocks | FiveBlocks(blocks)
        ensures PriorityFee(tip, FeeCap(base, tip), BaseFeeAfter(base, blocks)) == tip
      {
        BaseFeeAtMost(base, blocks);
      }
    } else {
      FullBlocksRaise(base, 5);
      assert FiveBlocks(FullBlocks(5));
      assert PriorityFee(tip, FeeCap(base, tip), BaseFeeAfter(base, FullBlocks(5))) < tip;
    }
  }
}
