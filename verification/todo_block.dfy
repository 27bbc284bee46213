/** The item list of a todo block (components/blocks/todo-block.tsx): the list the block
    starts from and the four edits its controls make, each computing a new list that
    replaces the state. */
module TodoBlock {
  import opened Basics

  datatype TodoItem = TodoItem(id: string, text: string, checked: bool)

  /** The placeholder an empty list is replaced by. */
  const BlankItem: TodoItem := TodoItem("1", "", false)

  /** The state's first value: the given items, or the placeholder when there are none.
      It is never empty, and a non-empty list is taken as it is. */
  function InitialItems(initial: seq<TodoItem>): (r: seq<TodoItem>)
    ensures |r| >= 1
    ensures initial != [] ==> r == initial
    ensures initial == [] ==> r == [BlankItem]
  {
    if |initial| > 0 then initial else [BlankItem]
  }

  /** toggleItem: `checked` flipped on every item with the id, nothing else changed. */
  function Toggled(items: seq<TodoItem>, itemId: string): (r: seq<TodoItem>)
    ensures |r| == |items|
    ensures forall k :: 0 <= k < |r| ==>
      r[k].id == items[k].id && r[k].text == items[k].text &&
      r[k].checked == (if items[k].id == itemId then !items[k].checked else items[k].checked)
  {
    seq(|items|, k requires 0 <= k < |items| =>
      if items[k].id == itemId then items[k].(checked := !items[k].checked) else items[k])
  }

  /** Toggling the same id twice gives back the list. */
  lemma {:induction false} ToggleTwice(items: seq<TodoItem>, itemId: string)
    ensures Toggled(Toggled(items, itemId), itemId) == items
  {
    var r := Toggled(Toggled(items, itemId), itemId);
    forall k | 0 <= k < |items|
      ensures r[k] == items[k]
    {
      assert Toggled(items, itemId)[k].id == items[k].id;
    }
  }

  /** Toggling different ids commutes. */
  lemma TogglesCommute(items: seq<TodoItem>, a: string, b: string)
    ensures Toggled(Toggled(items, a), b) == Toggled(Toggled(items, b), a)
  {
    var x := Toggled(Toggled(items, a), b);
    var y := Toggled(Toggled(items, b), a);
    forall k | 0 <= k < |items|
      ensures x[k] == y[k]
    {
      assert Toggled(items, a)[k].id == items[k].id == Toggled(items, b)[k].id;
    }
  }

  /** updateItemText: the text of every item with the id replaced, nothing else changed. */
  function WithText(items: seq<TodoItem>, itemId: string, text: string): (r: seq<TodoItem>)
    ensures |r| == |items|
    ensures forall k :: 0 <= k < |r| ==>
      r[k].id == items[k].id && r[k].checked == items[k].checked &&
      r[k].text == (if items[k].id == itemId then text else items[k].text)
  {
    seq(|items|, k requires 0 <= k < |items| =>
      if items[k].id == itemId then items[k].(text := text) else items[k])
  }

  /** Putting back the old text of the only item with the id restores the list. */
  lemma {:induction false} TextRestored(items: seq<TodoItem>, k: nat, text: string)
    requires k < |items|
    requires forall j :: 0 <= j < |items| && j != k ==> items[j].id != items[k].id
    ensures WithText(WithText(items, items[k].id, text), items[k].id, items[k].text) == items
  {
    var r := WithText(WithText(items, items[k].id, text), items[k].id, items[k].text);
    forall j | 0 <= j < |items|
      ensures r[j] == items[j]
    {
      assert WithText(items, items[k].id, text)[j].id == items[j].id;
    }
  }

  /** `Date.now().toString()`. */
  function ItemIdAt(now: nat): string
  {
    NatToString(now)
  }

  /** addItem: one unchecked, empty item after the others. */
  function WithNewItem(items: seq<TodoItem>, now: nat): (r: seq<TodoItem>)
    ensures |r| == |items| + 1 && r[..|items|] == items
    ensures r[|items|].id == ItemIdAt(now) && r[|items|].text == "" && !r[|items|].checked
  {
    items + [TodoItem(ItemIdAt(now), "", false)]
  }

  /** deleteItem: no change on a one-item list; otherwise every item with the id removed,
      the rest kept in their order. */
  function Deleted(items: seq<TodoItem>, itemId: string): (r: seq<TodoItem>)
    ensures |items| == 1 ==> r == items
    ensures |items| != 1 ==>
      (forall k :: 0 <= k < |r| ==> r[k].id != itemId && r[k] in items) &&
      (forall k :: 0 <= k < |items| && items[k].id != itemId ==> items[k] in r)
  {
    if |items| == 1 then items else Filter(items, (item: TodoItem) => item.id != itemId)
  }

  /** Deleting the item just added, under an id no other item has, restores a non-empty
      list (on an empty one the guard keeps the new item). */
  lemma DeleteAfterAdd(items: seq<TodoItem>, now: nat)
    requires |items| >= 1
    requires forall k :: 0 <= k < |items| ==> items[k].id != ItemIdAt(now)
    ensures Deleted(WithNewItem(items, now), ItemIdAt(now)) == items
  {
    var keep := (item: TodoItem) => item.id != ItemIdAt(now);
    var added := TodoItem(ItemIdAt(now), "", false);
    FilterAppend(items, [added], keep);
    FilterKeepsAll(items, keep);
    assert Filter([added], keep) == [];
  }

  /** The one-item guard does not keep the list non-empty: when every item shares the id,
      deleting it removes them all. */
  lemma {:induction false} SharedIdEmptiesList(item: TodoItem)
    ensures Deleted([item, item], item.id) == []
  {
    var keep := (i: TodoItem) => i.id != item.id;
    FilterAppend([item], [item], keep);
    assert [item] + [item] == [item, item];
  }

  /** With distinct ids, deleting from a list of two or more leaves at least one item. */
  lemma DistinctIdsKeepOne(items: seq<TodoItem>, itemId: string)
    requires |items| >= 2
    requires forall j, k :: 0 <= j < k < |items| ==> items[j].id != items[k].id
    ensures |Deleted(items, itemId)| >= 1
  {
    var k := if items[0].id != itemId then 0 else 1;
    assert items[k].id != itemId;
    assert items[k] in Deleted(items, itemId);
  }
}
