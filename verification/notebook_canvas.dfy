/** The block list of the notebook canvas (components/notebook-canvas.tsx): adding, editing
    and deleting blocks, and the drag reorder that moves the dragged block to the target's
    index and renumbers every block's `order`.

    The component's state (the blocks and the id being dragged) is the class `NotebookCanvas`;
    the list edits are functions on `seq<CanvasBlock>`, and the reorder is the method
    `Reorder`, which splices a copy and renumbers it in a loop as the handler does. */
module NotebookCanvas {
  import opened Basics

  datatype BlockType = Text | Equation | Code | Graph | Ai

  datatype CanvasBlock = CanvasBlock(id: string, kind: BlockType, content: string, order: int)

  const WelcomeText: string :=
    "# Welcome to STEM Notebook\n\nStart writing your notes, equations, and code here."

  /** The list the canvas starts with. */
  const InitialBlocks: seq<CanvasBlock> := [CanvasBlock("1", Text, WelcomeText, 0)]

  /** `Date.now().toString()`. */
  function BlockIdAt(now: nat): string
  {
    NatToString(now)
  }

  /** addBlock: one block with empty content, numbered by the old length, after the others. */
  function Appended(blocks: seq<CanvasBlock>, kind: BlockType, now: nat): (r: seq<CanvasBlock>)
    ensures |r| == |blocks| + 1 && r[..|blocks|] == blocks
    ensures r[|blocks|].id == BlockIdAt(now)
    ensures r[|blocks|].kind == kind && r[|blocks|].content == "" && r[|blocks|].order == |blocks|
  {
    blocks + [CanvasBlock(BlockIdAt(now), kind, "", |blocks|)]
  }

  /** updateBlock: every block with the id gets the content; no other field and no other
      block changes. */
  function WithContent(blocks: seq<CanvasBlock>, id: string, content: string): (r: seq<CanvasBlock>)
    ensures |r| == |blocks|
    ensures forall k :: 0 <= k < |r| ==> r[k].(content := blocks[k].content) == blocks[k]
    ensures forall k :: 0 <= k < |r| ==> (if blocks[k].id == id then r[k].content == content else r[k] == blocks[k])
  {
    seq(|blocks|, k requires 0 <= k < |blocks| =>
      if blocks[k].id == id then blocks[k].(content := content) else blocks[k])
  }

  /** Writing twice keeps only the second content. */
  lemma LastUpdateWins(blocks: seq<CanvasBlock>, id: string, first: string, second: string)
    ensures WithContent(WithContent(blocks, id, first), id, second) == WithContent(blocks, id, second)
  {
  }

  /** deleteBlock: every block with the id removed, the rest kept in their order. */
  function Without(blocks: seq<CanvasBlock>, id: string): (r: seq<CanvasBlock>)
    ensures forall k :: 0 <= k < |r| ==> r[k].id != id && r[k] in blocks
    ensures forall k :: 0 <= k < |blocks| && blocks[k].id != id ==> blocks[k] in r
  {
    Filter(blocks, (b: CanvasBlock) => b.id != id)
  }

  /** Deleting the block just added, under an id no other block has, restores the list. */
  lemma DeleteAfterAdd(blocks: seq<CanvasBlock>, kind: BlockType, now: nat)
    requires forall k :: 0 <= k < |blocks| ==> blocks[k].id != BlockIdAt(now)
    ensures Without(Appended(blocks, kind, now), BlockIdAt(now)) == blocks
  {
    var keep := (b: CanvasBlock) => b.id != BlockIdAt(now);
    var added := CanvasBlock(BlockIdAt(now), kind, "", |blocks|);
    FilterAppend(blocks, [added], keep);
    FilterKeepsAll(blocks, keep);
    assert Filter([added], keep) == [];
  }

  /** The two splices of the reorder: the block at `from` taken out, then put back in at
      `to`. The result is a permutation in which that block sits at `to` and the others keep
      their relative order. */
  function Moved(blocks: seq<CanvasBlock>, from: nat, to: nat): (r: seq<CanvasBlock>)
    requires from < |blocks| && to < |blocks|
    ensures |r| == |blocks| && multiset(r) == multiset(blocks)
    ensures r[to] == blocks[from]
    ensures r[..to] + r[to + 1..] == blocks[..from] + blocks[from + 1..]
  {
    var rest := blocks[..from] + blocks[from + 1..];
    var r := rest[..to] + [blocks[from]] + rest[to..];
    assert r[..to] == rest[..to] && r[to + 1..] == rest[to..];
    assert rest[..to] + rest[to..] == rest;
    calc {
      multiset(r);
      multiset(rest[..to]) + multiset([blocks[from]]) + multiset(rest[to..]);
      multiset(rest) + multiset([blocks[from]]);
      multiset(blocks[..from]) + multiset(blocks[from + 1..]) + multiset([blocks[from]]);
      { assert blocks == blocks[..from] + [blocks[from]] + blocks[from + 1..]; }
      multiset(blocks);
    }
    r
  }

  /** The forEach that sets each block's `order` to its index. */
  function Renumbered(blocks: seq<CanvasBlock>): (r: seq<CanvasBlock>)
    ensures |r| == |blocks|
    ensures forall k :: 0 <= k < |r| ==> r[k].order == k && r[k].(order := blocks[k].order) == blocks[k]
  {
    seq(|blocks|, k requires 0 <= k < |blocks| => blocks[k].(order := k))
  }

  /** Renumbering a list whose orders already are its indices changes nothing. */
  lemma RenumberedIsIdempotent(blocks: seq<CanvasBlock>)
    ensures Renumbered(Renumbered(blocks)) == Renumbered(blocks)
  {
  }

  /** The reorder of handleDragOver on a copy of the list: splice out, splice in, renumber. */
  method Reorder(blocks: seq<CanvasBlock>, draggedIndex: nat, targetIndex: nat) returns (r: seq<CanvasBlock>)
    requires draggedIndex < |blocks| && targetIndex < |blocks|
    ensures r == Renumbered(Moved(blocks, draggedIndex, targetIndex))
  {
    var newBlocks := blocks;
    var removed := newBlocks[draggedIndex];
    newBlocks := newBlocks[..draggedIndex] + newBlocks[draggedIndex + 1..];
    newBlocks := newBlocks[..targetIndex] + [removed] + newBlocks[targetIndex..];
    ghost var moved := Moved(blocks, draggedIndex, targetIndex);
    assert newBlocks == moved;
    for index := 0 to |newBlocks|
      invariant |newBlocks| == |moved|
      invariant forall k :: 0 <= k < index ==> newBlocks[k] == moved[k].(order := k)
      invariant forall k :: index <= k < |newBlocks| ==> newBlocks[k] == moved[k]
    {
      newBlocks := newBlocks[index := newBlocks[index].(order := index)];
    }
    r := newBlocks;
  }

  function IndexOf(blocks: seq<CanvasBlock>, id: string): int
  {
    FirstIndex(blocks, (b: CanvasBlock) => b.id == id)
  }

  /** Whether handleDragOver returns early: nothing (or the empty id) is being dragged, the
      target is the dragged block, or either id is not in the list. */
  predicate DragIgnored(blocks: seq<CanvasBlock>, dragged: Option<string>, targetId: string)
  {
    dragged.None? || dragged.value == "" || dragged.value == targetId ||
    IndexOf(blocks, dragged.value) == -1 || IndexOf(blocks, targetId) == -1
  }

  /** The list after handleDragOver. */
  function DraggedOver(blocks: seq<CanvasBlock>, dragged: Option<string>, targetId: string): seq<CanvasBlock>
  {
    if DragIgnored(blocks, dragged, targetId) then blocks
    else Renumbered(Moved(blocks, IndexOf(blocks, dragged.value), IndexOf(blocks, targetId)))
  }

  /** handleDragOver leaves the list alone exactly when it returns early. */
  lemma DragOverNoOpIffIgnored(blocks: seq<CanvasBlock>, dragged: Option<string>, targetId: string)
    ensures DraggedOver(blocks, dragged, targetId) == blocks <==> DragIgnored(blocks, dragged, targetId)
  {
    if !DragIgnored(blocks, dragged, targetId) {
      var from := IndexOf(blocks, dragged.value);
      var to := IndexOf(blocks, targetId);
      var r := Renumbered(Moved(blocks, from, to));
      assert r[to].id == dragged.value != targetId == blocks[to].id;
    }
  }

  /** Two lists that differ only in their `order` fields. */
  predicate SameButOrder(a: seq<CanvasBlock>, b: seq<CanvasBlock>)
  {
    |a| == |b| && forall k :: 0 <= k < |a| ==> a[k].(order := b[k].order) == b[k]
  }

  /** When handleDragOver does not return early, the dragged block (the first with its id)
      lands where the target was, keeping its id, type and content; the other blocks keep
      their relative order; and every `order` is the block's index. */
  lemma DragOverMoves(blocks: seq<CanvasBlock>, dragged: Option<string>, targetId: string)
    requires !DragIgnored(blocks, dragged, targetId)
    ensures var r := DraggedOver(blocks, dragged, targetId);
      var from := IndexOf(blocks, dragged.value);
      var to := IndexOf(blocks, targetId);
      |r| == |blocks| &&
      r[to] == blocks[from].(order := to) && r[to].id == dragged.value &&
      (forall k :: 0 <= k < |r| ==> r[k].order == k) &&
      SameButOrder(r[..to] + r[to + 1..], blocks[..from] + blocks[from + 1..])
  {
    var from := IndexOf(blocks, dragged.value);
    var to := IndexOf(blocks, targetId);
    var m := Moved(blocks, from, to);
    var r := Renumbered(m);
    var x := r[..to] + r[to + 1..];
    var y := m[..to] + m[to + 1..];
    forall k | 0 <= k < |x|
      ensures x[k].(order := y[k].order) == y[k]
    {
      if k < to {
        assert x[k] == r[k] && y[k] == m[k];
      } else {
        assert x[k] == r[k + 1] && y[k] == m[k + 1];
      }
    }
  }

  class NotebookCanvas {
    var blocks: seq<CanvasBlock>
    var draggedBlock: Option<string>

    constructor()
      ensures blocks == InitialBlocks && draggedBlock == None
    {
      blocks := InitialBlocks;
      draggedBlock := None;
    }

    method AddBlock(kind: BlockType, now: nat)
      modifies this
      ensures blocks == Appended(old(blocks), kind, now) && draggedBlock == old(draggedBlock)
    {
      var newBlock := CanvasBlock(BlockIdAt(now), kind, "", |blocks|);
      blocks := blocks + [newBlock];
    }

    method UpdateBlock(id: string, content: string)
      modifies this
      ensures blocks == WithContent(old(blocks), id, content) && draggedBlock == old(draggedBlock)
    {
      blocks := WithContent(blocks, id, content);
    }

    method DeleteBlock(id: string)
      modifies this
      ensures blocks == Without(old(blocks), id) && draggedBlock == old(draggedBlock)
    {
      blocks := Filter(blocks, (b: CanvasBlock) => b.id != id);
    }

    method HandleDragStart(id: string)
      modifies this
      ensures draggedBlock == Some(id) && blocks == old(blocks)
    {
      draggedBlock := Some(id);
    }

    method HandleDragOver(targetId: string)
      modifies this
      ensures blocks == DraggedOver(old(blocks), old(draggedBlock), targetId)
      ensures draggedBlock == old(draggedBlock)
    {
      if draggedBlock.None? || draggedBlock.value == "" || draggedBlock.value == targetId {
        return;
      }
      var dragged := draggedBlock.value;
      var draggedIndex := FirstIndex(blocks, (b: CanvasBlock) => b.id == dragged);
      var targetIndex := FirstIndex(blocks, (b: CanvasBlock) => b.id == targetId);
      if draggedIndex == -1 || targetIndex == -1 {
        return;
      }
      blocks := Reorder(blocks, draggedIndex, targetIndex);
    }

    method HandleDragEnd()
      modifies this
      ensures draggedBlock == None && blocks == old(blocks)
    {
      draggedBlock := None;
    }
  }
}
