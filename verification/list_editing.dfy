/**
  The editable lists of the problem statement and of the requested
  investigations: an input box whose trimmed text is appended on submit, and
  a remove button per item.
 */
module ListEditing {
  import opened JsString

  /** A list and the text typed in its input box. */
  datatype ListEditor = ListEditor(items: seq<Text>, draft: Text)

  /** Typing in the input box. */
  function SetDraft(e: ListEditor, t: Text): (r: ListEditor)
    ensures r.items == e.items && r.draft == t
  {
    e.(draft := t)
  }

  /** `handleAddItem`: a draft that is not blank is trimmed, appended, and the
      box cleared; a blank draft changes nothing. */
  function AddItem(e: ListEditor): (r: ListEditor)
    ensures Blank(e.draft) ==> r == e
    ensures !Blank(e.draft) ==>
      && |r.items| == |e.items| + 1
      && r.items[..|e.items|] == e.items
      && r.items[|e.items|] == Trim(e.draft)
      && r.draft == []
  {
    if Blank(e.draft) then e
    else ListEditor(e.items + [Trim(e.draft)], [])
  }

  /** `items.filter((_, index) => index !== k)`, walked from position `from`. */
  function FilterIndex(items: seq<Text>, k: int, from: nat): (r: seq<Text>)
    requires from <= |items|
    ensures from <= k < |items| ==> r == items[from..k] + items[k + 1..]
    ensures !(from <= k < |items|) ==> r == items[from..]
    decreases |items| - from
  {
    if from == |items| then []
    else if from == k then FilterIndex(items, k, from + 1)
    else [items[from]] + FilterIndex(items, k, from + 1)
  }

  /** `handleRemoveItem`. */
  function RemoveItem(items: seq<Text>, k: int): (r: seq<Text>)
    ensures 0 <= k < |items| ==> |r| == |items| - 1
    ensures 0 <= k < |items| ==>
      && (forall i :: 0 <= i < k ==> r[i] == items[i])
      && (forall i :: k <= i < |r| ==> r[i] == items[i + 1])
    ensures !(0 <= k < |items|) ==> r == items
  {
    FilterIndex(items, k, 0)
  }

  /** Removing what was just added gives the list back. */
  lemma RemoveUndoesAdd(e: ListEditor)
    requires !Blank(e.draft)
    ensures RemoveItem(AddItem(e).items, |e.items|) == e.items
  {
  }

  /** No list item is blank. */
  predicate NoBlankItems(items: seq<Text>) {
    forall i :: 0 <= i < |items| ==> !Blank(items[i])
  }

  /** Every list item is already trimmed. */
  predicate TrimmedItems(items: seq<Text>) {
    forall i :: 0 <= i < |items| ==> Trim(items[i]) == items[i]
  }

  /** Adding and removing keep every item non-blank and trimmed, so a list
      built in the editor holds no blank entries. */
  lemma EditsKeepItemsTrimmed(e: ListEditor, k: int)
    requires NoBlankItems(e.items) && TrimmedItems(e.items)
    ensures NoBlankItems(AddItem(e).items) && TrimmedItems(AddItem(e).items)
    ensures NoBlankItems(RemoveItem(e.items, k)) && TrimmedItems(RemoveItem(e.items, k))
  {
    AddKeepsItemsTrimmed(e);
    RemoveKeepsItemsTrimmed(e.items, k);
  }

  lemma AddKeepsItemsTrimmed(e: ListEditor)
    requires NoBlankItems(e.items) && TrimmedItems(e.items)
    ensures NoBlankItems(AddItem(e).items) && TrimmedItems(AddItem(e).items)
  {
    if !Blank(e.draft) {
      var r := AddItem(e).items;
      var n := |e.items|;
      assert forall i :: 0 <= i < n ==> r[i] == e.items[i];
      TrimIdempotent(e.draft);
      assert r[n] == Trim(e.draft) && Trim(r[n]) == r[n];
      assert |Trim(r[n])| > 0;
    }
  }

  lemma RemoveKeepsItemsTrimmed(items: seq<Text>, k: int)
    requires NoBlankItems(items) && TrimmedItems(items)
    ensures NoBlankItems(RemoveItem(items, k)) && TrimmedItems(RemoveItem(items, k))
  {
    var r := RemoveItem(items, k);
    forall i | 0 <= i < |r| ensures !Blank(r[i]) && Trim(r[i]) == r[i] {
      var src := if 0 <= k <= i then i + 1 else i;
      assert r[i] == items[src];
    }
  }
}
