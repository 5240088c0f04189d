/** Blocks as values. A hash determines a block's height, parent and contents, so the block is the hash. */
module Blocks {
  import opened Prelude

  datatype Transfer = Transfer(txHash: nat, logIndex: int, contract: nat, to: nat, amount: nat)

  datatype Block = Genesis | Block(parent: Block, salt: nat, transfers: seq<Transfer>) {
    function Height(): nat { if Genesis? then 0 else parent.Height() + 1 }

    function Logs(): seq<Transfer> { if Genesis? then [] else transfers }
  }

  /** `header_at`: the block at a height of the chain that ends in `head`. */
  function HeaderAt(head: Block, height: nat): (r: Option<Block>)
    ensures r.Some? <==> height <= head.Height()
    ensures r.Some? ==> r.value.Height() == height
  {
    if height > head.Height() then None
    else if height == head.Height() then Some(head)
    else HeaderAt(head.parent, height)
  }

  predicate OnChain(head: Block, b: Block) { HeaderAt(head, b.Height()) == Some(b) }

  /** A chain through a block at height `k` has that block's ancestors below `k`. */
  lemma {:induction false} HeaderBelow(head: Block, k: nat, height: nat)
    requires height <= k <= head.Height()
    ensures HeaderAt(head, k).Some? && HeaderAt(HeaderAt(head, k).value, height) == HeaderAt(head, height)
  {
    if k < head.Height() {
      HeaderBelow(head.parent, k, height);
    }
  }

  lemma ParentLinked(head: Block, height: nat)
    requires height < head.Height()
    ensures HeaderAt(head, height + 1).Some? && HeaderAt(head, height).Some?
    ensures HeaderAt(head, height + 1).value.Block?
    ensures HeaderAt(head, height + 1).value.parent == HeaderAt(head, height).value
  {
    HeaderBelow(head, height + 1, height);
  }

  predicate AgreeAt(x: Block, y: Block, height: nat) {
    HeaderAt(x, height).Some? && HeaderAt(x, height) == HeaderAt(y, height)
  }

  /** The highest height two chains share. */
  ghost predicate IsFork(x: Block, y: Block, f: nat) {
    AgreeAt(x, y, f) && forall h :: h > f ==> !AgreeAt(x, y, h)
  }

  /** Chains that agree at a height agree below it, and chains that differ there differ above it. */
  lemma AgreementIsDownwardClosed(x: Block, y: Block, k: nat, h: nat)
    requires AgreeAt(x, y, k) && h <= k
    ensures AgreeAt(x, y, h)
  {
    HeaderBelow(x, k, h);
    HeaderBelow(y, k, h);
  }

  lemma {:induction false} GenesisIsShared(x: Block)
    ensures HeaderAt(x, 0) == Some(Genesis)
  {
    if x.Block? {
      GenesisIsShared(x.parent);
    }
  }

  /** Every height is on the agreeing side or the differing side of one fork point. */
  lemma {:induction false} ForkExists(x: Block, y: Block, k: nat) returns (f: nat)
    requires forall h :: h > k ==> !AgreeAt(x, y, h)
    ensures f <= k && IsFork(x, y, f)
  {
    GenesisIsShared(x);
    GenesisIsShared(y);
    if AgreeAt(x, y, k) {
      f := k;
    } else {
      f := ForkExists(x, y, k - 1);
    }
  }

  /** Any two chains have a fork point. */
  lemma ForkOf(x: Block, y: Block) returns (f: nat)
    ensures f <= x.Height() && f <= y.Height() && IsFork(x, y, f)
  {
    f := ForkExists(x, y, x.Height());
  }
}
