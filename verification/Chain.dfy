/**
 The block tree and the active chain (`chain.cpp`, `chain.h`).

 A block's parent and height are fixed when it is created; its skip pointer is set later.
 The reference for every fast walk is `Up`, which follows parents one step at a time.
*/
module BlockChain {
  /** Turn the lowest one bit of a number into a zero. */
  function InvertLowestOne(n: nat): (m: nat)
    ensures m <= n && (n > 0 ==> m < n)
  {
    if n % 2 == 1 then n - 1 else if n == 0 then 0 else 2 * InvertLowestOne(n / 2)
  }

  /** The height that a skip pointer jumps back to. */
  function GetSkipHeight(height: int): (h: nat)
    ensures 0 < height ==> h < height
  {
    if height < 2 then 0
    else if height % 2 == 1 then InvertLowestOne(InvertLowestOne(height - 1)) + 1
    else InvertLowestOne(height)
  }

  class BlockIndex {
    const prev: BlockIndex?
    const height: nat
    var skip: BlockIndex?

    constructor (p: BlockIndex?)
      requires p != null ==> p.Linked()
      ensures prev == p && skip == null && Linked()
      ensures height == if p == null then 0 else p.height + 1
    {
      prev := p;
      height := if p == null then 0 else p.height + 1;
      skip := null;
    }

    /** Heights count the steps to the genesis block. */
    ghost predicate Linked()
      decreases height
    {
      if prev == null then height == 0 else height == prev.height + 1 && prev.Linked()
    }

    /** The block `k` parents up. */
    ghost function Up(k: nat): (b: BlockIndex)
      requires Linked() && k <= height
      ensures b.Linked() && b.height == height - k
      decreases height
    {
      if k == 0 then this else prev.Up(k - 1)
    }

    /** The block and everything above it. */
    ghost function Ancestors(): set<BlockIndex>
      requires Linked()
      decreases height
    {
      if prev == null then {this} else {this} + prev.Ancestors()
    }

    ghost predicate SkipOk()
      requires Linked()
      reads this
    {
      skip == null || (height > 0 && skip == Up(height - GetSkipHeight(height)))
    }

    /** All skip pointers on the way up are null or as `BuildSkip` sets them. */
    ghost predicate SkipsOk()
      requires Linked()
      reads Ancestors()
      decreases height
    {
      SkipOk() && (prev != null ==> prev.SkipsOk())
    }

    lemma {:induction false} UpUp(i: nat, j: nat)
      requires Linked() && i + j <= height
      ensures Up(i).Up(j) == Up(i + j)
      decreases height
    {
      if i > 0 {
        prev.UpUp(i - 1, j);
      }
    }

    lemma {:induction false} UpSkips(i: nat)
      requires Linked() && SkipsOk() && i <= height
      ensures Up(i).SkipsOk()
      decreases height
    {
      if i > 0 {
        prev.UpSkips(i - 1);
      }
    }

    lemma {:induction false} AncestorsAreUp(b: BlockIndex)
      requires Linked()
      ensures b in Ancestors() <==> b.height <= height && b == Up(height - b.height)
      decreases height
    {
      if prev != null && b != this {
        prev.AncestorsAreUp(b);
      }
    }

    /** One step up towards a height: along the skip pointer where that pays, else to the parent. */
    method Stride(h: nat, ghost start: BlockIndex) returns (b: BlockIndex)
      requires Linked() && SkipsOk() && h < height
      requires start.Linked() && start.SkipsOk()
      ensures h <= b.height < height && b == Up(height - b.height) && b.SkipsOk() && start.SkipsOk()
    {
      var heightSkip := GetSkipHeight(height);
      var heightSkipPrev := GetSkipHeight(height - 1);
      if skip != null
         && (heightSkip == h || (heightSkip > h && !(heightSkipPrev < heightSkip - 2 && heightSkipPrev >= h)))
      {
        UpSkips(height - heightSkip);
        b := skip;
      } else {
        UpSkips(1);
        b := prev;
      }
    }

    /** The ancestor at a height, by skip pointers: the same as walking up one by one. */
    method GetAncestor(h: int) returns (b: BlockIndex?)
      requires Linked() && SkipsOk()
      ensures h > height || h < 0 ==> b == null
      ensures 0 <= h <= height ==> b == Up(height - h)
      ensures SkipsOk()
    {
      if h > height || h < 0 {
        return null;
      }
      var walk := this;
      while walk.height > h
        invariant h <= walk.height <= height && walk == Up(height - walk.height)
        invariant SkipsOk() && walk.SkipsOk()
        decreases walk.height
      {
        var next := walk.Stride(h, this);
        UpUp(height - walk.height, walk.height - next.height);
        walk := next;
      }
      b := walk;
    }

    method BuildSkip()
      requires Linked() && (prev != null ==> prev.SkipsOk())
      requires prev == null ==> skip == null
      modifies this`skip
      ensures SkipsOk() && (prev != null ==> skip == Up(height - GetSkipHeight(height)))
    {
      if prev != null {
        var b := prev.GetAncestor(GetSkipHeight(height));
        prev.AncestorsAreUp(this);
        skip := b;
      }
    }
  }

  /** `c` is an ancestor of both, and no common ancestor is higher. */
  ghost predicate IsLastCommon(a: BlockIndex, b: BlockIndex, c: BlockIndex)
    requires a.Linked() && b.Linked()
  {
    && c in a.Ancestors() && c in b.Ancestors()
    && forall d :: d in a.Ancestors() && d in b.Ancestors() ==> d.height <= c.height
  }

  /** Blocks at equal height that differ have the common ancestors of their parents. */
  lemma {:induction false} StepBack(a: BlockIndex, b: BlockIndex, c: BlockIndex)
    requires a.Linked() && b.Linked() && a.height == b.height && a != b && a.height > 0
    requires IsLastCommon(a.prev, b.prev, c)
    ensures IsLastCommon(a, b, c)
  {
    forall d | d in a.Ancestors() && d in b.Ancestors() ensures d.height <= c.height {
      a.AncestorsAreUp(d);
      b.AncestorsAreUp(d);
      assert d != a && d != b;
    }
  }

  /** Going up from the higher block to the height of the other loses no common ancestor. */
  lemma {:induction false} LevelOut(a: BlockIndex, b: BlockIndex, c: BlockIndex)
    requires a.Linked() && b.Linked() && b.height <= a.height && IsLastCommon(a.Up(a.height - b.height), b, c)
    ensures IsLastCommon(a, b, c)
  {
    var a' := a.Up(a.height - b.height);
    forall d | d in b.Ancestors() ensures d in a.Ancestors() <==> d in a'.Ancestors() {
      b.AncestorsAreUp(d);
      a.AncestorsAreUp(d);
      a'.AncestorsAreUp(d);
      a.UpUp(a.height - b.height, b.height - d.height);
    }
  }

  lemma {:induction false} CommonFlip(a: BlockIndex, b: BlockIndex, c: BlockIndex)
    requires a.Linked() && b.Linked() && IsLastCommon(a, b, c)
    ensures IsLastCommon(b, a, c)
  {
  }

  /** From equal heights down to the last common block. */
  method MeetUp(pa: BlockIndex, pb: BlockIndex) returns (r: BlockIndex)
    requires pa.Linked() && pb.Linked() && pa.height == pb.height && pa.Up(pa.height) == pb.Up(pb.height)
    ensures IsLastCommon(pa, pb, r)
    decreases pa.height
  {
    var a: BlockIndex?, b: BlockIndex? := pa, pb;
    while a != b && a != null && b != null
      invariant a != null && b != null && a.Linked() && b.Linked() && a.height == b.height
      invariant a.Up(a.height) == b.Up(b.height)
      invariant forall c {:trigger IsLastCommon(pa, pb, c)} :: IsLastCommon(a, b, c) ==> IsLastCommon(pa, pb, c)
      decreases a.height
    {
      forall c | IsLastCommon(a.prev, b.prev, c) ensures IsLastCommon(pa, pb, c) {
        StepBack(a, b, c);
      }
      a, b := a.prev, b.prev;
    }
    r := a;
    SelfCommon(r);
  }

  lemma {:induction false} SelfCommon(a: BlockIndex)
    requires a.Linked()
    ensures IsLastCommon(a, a, a)
  {
    forall d | d in a.Ancestors() ensures d.height <= a.height {
      a.AncestorsAreUp(d);
    }
  }

  /** The last common ancestor of two blocks of one tree. */
  method LastCommonAncestor(pa: BlockIndex, pb: BlockIndex) returns (r: BlockIndex)
    requires pa.Linked() && pb.Linked() && pa.SkipsOk() && pb.SkipsOk()
    requires pa.Up(pa.height) == pb.Up(pb.height)
    ensures IsLastCommon(pa, pb, r)
  {
    var a: BlockIndex?, b: BlockIndex? := pa, pb;
    if pa.height > pb.height {
      a := pa.GetAncestor(pb.height);
      pa.UpUp(pa.height - pb.height, pb.height);
    } else if pb.height > pa.height {
      b := pb.GetAncestor(pa.height);
      pb.UpUp(pb.height - pa.height, pa.height);
    }
    r := MeetUp(a, b);
    if pa.height > pb.height {
      LevelOut(pa, pb, r);
    } else if pb.height > pa.height {
      CommonFlip(a, b, r);
      LevelOut(pb, pa, r);
      CommonFlip(pb, pa, r);
    }
  }

  /** The active chain: a vector of blocks by height. */
  class Chain {
    var blocks: seq<BlockIndex?>

    constructor ()
      ensures blocks == [] && Valid()
    {
      blocks := [];
    }

    ghost predicate Valid()
      reads this
    {
      Stacked(blocks)
    }

    function Height(): int
      reads this
    {
      |blocks| - 1
    }

    predicate Contains(b: BlockIndex)
      reads this
    {
      b.height < |blocks| && blocks[b.height] == b
    }

    /** A block is in the chain exactly when it is an ancestor of the tip. */
    lemma {:induction false} ContainsAncestors(b: BlockIndex)
      requires Valid() && blocks != []
      ensures Contains(b) <==> b in blocks[|blocks| - 1].Ancestors()
    {
      var tip := blocks[|blocks| - 1];
      tip.AncestorsAreUp(b);
      if b.height < |blocks| {
        WasBelow(blocks, b.height, |blocks| - 1);
      }
    }

    /** Make a block the tip. */
    method SetTip(block: BlockIndex)
      requires Valid() && block.Linked()
      modifies this
      ensures Valid() && |blocks| == block.height + 1
      ensures forall i :: 0 <= i < |blocks| ==> blocks[i] == block.Up(block.height - i)
    {
      var n := block.height + 1;
      ghost var was := blocks;
      blocks := if |blocks| > n then blocks[..n] else blocks + seq(n - |blocks|, _ => null);
      blocks := FillDown(block, blocks, was);
      AllUp(block);
    }

    /** Enter a block and its ancestors, until one is already in place. */
    static method FillDown(block: BlockIndex, v: seq<BlockIndex?>, ghost was: seq<BlockIndex?>) returns (r: seq<BlockIndex?>)
      requires block.Linked() && |v| == block.height + 1 && Stacked(was)
      requires forall i :: 0 <= i < |v| ==> v[i] == if i < |was| then was[i] else null
      ensures |r| == |v| && forall i :: 0 <= i < |r| ==> r[i] == block.Up(block.height - i)
    {
      r := v;
      var b: BlockIndex? := block;
      ghost var k: int := block.height;
      while b != null && r[b.height] != b
        invariant |r| == |v| && -1 <= k < |v| && (b == null <==> k == -1)
        invariant b != null ==> b.Linked() && b.height == k && b == block.Up(block.height - k)
        invariant forall i :: k < i < |v| ==> r[i] == block.Up(block.height - i)
        invariant forall i :: 0 <= i <= k ==> r[i] == v[i]
        decreases k
      {
        r := r[b.height := b];
        if b.prev != null {
          block.UpUp(block.height - k, 1);
        }
        b := b.prev;
        k := k - 1;
      }
      if b != null {
        forall i | 0 <= i <= k ensures r[i] == block.Up(block.height - i) {
          WasBelow(was, i, k);
          block.UpUp(block.height - k, k - i);
        }
      }
    }

    /** Each block stands at its height, on its parent. */
    static ghost predicate Stacked(v: seq<BlockIndex?>) {
      && (forall i :: 0 <= i < |v| ==> v[i] != null && v[i].Linked() && v[i].height == i)
      && (forall i :: 0 < i < |v| ==> v[i].prev == v[i - 1])
    }

    /** Below a block of a chain the chain consists of its ancestors. */
    static lemma {:induction false} WasBelow(was: seq<BlockIndex?>, i: nat, j: nat)
      requires Stacked(was) && i <= j < |was|
      ensures was[j].Up(j - i) == was[i]
      decreases j
    {
      if i < j {
        WasBelow(was, i, j - 1);
      }
    }

    lemma {:induction false} AllUp(block: BlockIndex)
      requires block.Linked() && |blocks| == block.height + 1
      requires forall i :: 0 <= i < |blocks| ==> blocks[i] == block.Up(block.height - i)
      ensures Valid()
    {
      forall i | 0 < i < |blocks| ensures blocks[i].prev == blocks[i - 1] {
        block.UpUp(block.height - i, 1);
      }
    }

    /** The highest block of the chain that is the given block or one of its ancestors. */
    method FindFork(block: BlockIndex?) returns (r: BlockIndex?)
      requires Valid() && (block != null ==> block.Linked() && block.SkipsOk())
      ensures block == null ==> r == null
      ensures block != null && r != null ==> r in block.Ancestors() && Contains(r)
      ensures block != null ==>
        forall d :: d in block.Ancestors() && Contains(d) ==> r != null && d.height <= r.height
    {
      if block == null {
        return null;
      }
      r := block;
      if block.height > Height() {
        r := block.GetAncestor(Height());
      }
      ghost var k: int := if r == null then -1 else r.height;
      forall d | d in block.Ancestors() && Contains(d) ensures d.height <= k {
        block.AncestorsAreUp(d);
      }
      while r != null && !Contains(r)
        invariant -1 <= k <= block.height && (r == null <==> k == -1)
        invariant r != null ==> r.Linked() && r.height == k && r == block.Up(block.height - k)
        invariant forall d :: d in block.Ancestors() && Contains(d) ==> d.height <= k
        decreases k
      {
        forall d | d in block.Ancestors() && Contains(d) ensures d.height <= k - 1 {
          block.AncestorsAreUp(d);
        }
        if r.prev != null {
          block.UpUp(block.height - k, 1);
        }
        r := r.prev;
        k := k - 1;
      }
      if r != null {
        block.AncestorsAreUp(r);
      }
    }
  }
}
