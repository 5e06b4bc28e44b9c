/** A list of window numbers as its maximal blocks of equal neighbours, and sums over the blocks of one window. */
module WindowBlocks {
  import opened Arith

  datatype Block = Block(window: int, size: nat)

  /** The maximal blocks of equal neighbours, in order. */
  function Blocks(windows: seq<int>): (blocks: seq<Block>)
    ensures blocks == [] <==> windows == []
    ensures forall i :: 0 <= i < |blocks| ==> blocks[i].size > 0
    ensures windows != [] ==> blocks[|blocks| - 1].window == windows[|windows| - 1]
  {
    if windows == [] then []
    else
      var before, w := Blocks(windows[..|windows| - 1]), windows[|windows| - 1];
      var n := |before|;
      if n > 0 && before[n - 1].window == w then before[..n - 1] + [Block(w, before[n - 1].size + 1)]
      else before + [Block(w, 1)]
  }

  /** How many blocks the window has. */
  function Number(blocks: seq<Block>, w: int): nat {
    if blocks == [] then 0
    else Number(blocks[..|blocks| - 1], w) + if blocks[|blocks| - 1].window == w then 1 else 0
  }

  /** How many members the window's blocks have together. */
  function Sizes(blocks: seq<Block>, w: int): nat {
    if blocks == [] then 0
    else Sizes(blocks[..|blocks| - 1], w) + if blocks[|blocks| - 1].window == w then blocks[|blocks| - 1].size else 0
  }

  /** The same with each block counted up to the cap. */
  function Capped(blocks: seq<Block>, w: int, cap: nat): nat {
    if blocks == [] then 0
    else Capped(blocks[..|blocks| - 1], w, cap) + if blocks[|blocks| - 1].window == w then Min(blocks[|blocks| - 1].size, cap) else 0
  }

  predicate Full(blocks: seq<Block>) {
    forall i :: 0 <= i < |blocks| ==> blocks[i].size > 0
  }

  lemma {:induction false} CappedBounds(blocks: seq<Block>, w: int, cap: nat)
    requires Full(blocks) && cap > 0
    ensures Number(blocks, w) <= Capped(blocks, w, cap) <= Sizes(blocks, w)
    ensures Capped(blocks, w, cap) >= Min(Sizes(blocks, w), cap)
    ensures Number(blocks, w) == 0 ==> Sizes(blocks, w) == 0
    ensures Sizes(blocks, w) <= cap ==> Capped(blocks, w, cap) == Sizes(blocks, w)
  {
    if blocks != [] {
      CappedBounds(blocks[..|blocks| - 1], w, cap);
    }
  }

  lemma {:induction false} CappedAtMost(blocks: seq<Block>, w: int, cap: nat)
    ensures Capped(blocks, w, cap) <= Number(blocks, w) * cap
  {
    if blocks != [] {
      var front := blocks[..|blocks| - 1];
      CappedAtMost(front, w, cap);
      assert (Number(front, w) + 1) * cap == Number(front, w) * cap + cap;
    }
  }

  lemma {:induction false} OneBlockIsCapped(blocks: seq<Block>, w: int, cap: nat)
    requires Full(blocks) && cap > 0
    ensures Number(blocks, w) <= 1 ==> Capped(blocks, w, cap) == Min(Sizes(blocks, w), cap)
    ensures Number(blocks, w) > 1 && Sizes(blocks, w) > cap ==> Capped(blocks, w, cap) > cap
  {
    if blocks != [] {
      var front := blocks[..|blocks| - 1];
      OneBlockIsCapped(front, w, cap);
      CappedBounds(front, w, cap);
    }
  }

  /** The capped sum is the capped total exactly when the total fits or the window has one block. */
  lemma CapIsLostBetweenBlocks(blocks: seq<Block>, w: int, cap: nat)
    requires Full(blocks) && cap > 0
    ensures Capped(blocks, w, cap) == Min(Sizes(blocks, w), cap) <==> Sizes(blocks, w) <= cap || Number(blocks, w) <= 1
  {
    CappedBounds(blocks, w, cap);
    OneBlockIsCapped(blocks, w, cap);
  }

  predicate Ordered(windows: seq<int>) {
    forall i, j :: 0 <= i < j < |windows| ==> windows[i] <= windows[j]
  }

  /** A window that is served in order has at most one block, and none beyond the last window. */
  lemma {:induction false} OrderedHasOneBlock(windows: seq<int>, w: int)
    requires Ordered(windows)
    ensures Number(Blocks(windows), w) <= 1
    ensures windows != [] && w > windows[|windows| - 1] ==> Number(Blocks(windows), w) == 0
  {
    if windows != [] {
      var front, last := windows[..|windows| - 1], windows[|windows| - 1];
      OrderedHasOneBlock(front, w);
      assert windows == front + [last];
      BlockAppend(front, last, w, 1);
      assert front != [] ==> front[|front| - 1] <= last;
    }
  }

  /** One more member extends the last block or opens a new one. */
  lemma BlockAppend(windows: seq<int>, last: int, w: int, cap: nat)
    requires cap > 0
    ensures var before, after := Blocks(windows), Blocks(windows + [last]);
            var joins := windows != [] && windows[|windows| - 1] == last;
            && Number(after, w) == Number(before, w) + (if last == w && !joins then 1 else 0)
            && Sizes(after, w) == Sizes(before, w) + (if last == w then 1 else 0)
            && Capped(after, w, cap) == Capped(before, w, cap)
                                        + (if last == w && (!joins || before[|before| - 1].size < cap) then 1 else 0)
            && after[|after| - 1] == Block(last, if joins then before[|before| - 1].size + 1 else 1)
  {
    var before, after := Blocks(windows), Blocks(windows + [last]);
    assert (windows + [last])[..|windows|] == windows;
    assert after[..|after| - 1] == if windows != [] && windows[|windows| - 1] == last then before[..|before| - 1] else before;
  }
}
