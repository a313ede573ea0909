/**
  The investigations editor: three lists on three tabs, each edited with the
  list editor.
 */
module DeNghiCLSEditor {
  import opened JsString
  import opened Types
  import opened ListEditing

  /** The three lists, named after their keys. */
  datatype Category = ChanDoanList | TheoDoiList | ThuongQuyList

  /** The tab shown first. */
  const InitialTab: Category := ChanDoanList

  function ListOf(d: DeNghiCLSData, c: Category): seq<Text> {
    match c
    case ChanDoanList => d.chanDoan
    case TheoDoiList => d.theoDoi
    case ThuongQuyList => d.thuongQuy
  }

  /** `handleListChange`: the given list is replaced, the other two stay. */
  function HandleListChange(d: DeNghiCLSData, c: Category, items: seq<Text>): (r: DeNghiCLSData)
    ensures ListOf(r, c) == items
    ensures forall c' :: c' != c ==> ListOf(r, c') == ListOf(d, c')
  {
    match c
    case ChanDoanList => d.(chanDoan := items)
    case TheoDoiList => d.(theoDoi := items)
    case ThuongQuyList => d.(thuongQuy := items)
  }

  /** Submitting the input box of the shown tab adds to that list only, and
      removing on it removes from that list only. */
  lemma EditsStayOnTab(d: DeNghiCLSData, tab: Category, draft: Text, k: int)
    ensures var added := HandleListChange(d, tab, AddItem(ListEditor(ListOf(d, tab), draft)).items);
      && (Blank(draft) ==> added == d)
      && (!Blank(draft) ==> ListOf(added, tab) == ListOf(d, tab) + [Trim(draft)])
      && forall c :: c != tab ==> ListOf(added, c) == ListOf(d, c)
    ensures var removed := HandleListChange(d, tab, RemoveItem(ListOf(d, tab), k));
      forall c :: c != tab ==> ListOf(removed, c) == ListOf(d, c)
  {
    var e := ListEditor(ListOf(d, tab), draft);
    if !Blank(draft) {
      assert AddItem(e).items == ListOf(d, tab) + [Trim(draft)];
    } else {
      assert AddItem(e).items == ListOf(d, tab);
    }
  }
}
