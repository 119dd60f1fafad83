/**
 * Calls that pass the adapter its own list (the one `getItems()` returns). The
 * argument and the backing list are then one object, so the mutation is visible
 * through the argument while the call is still reading it.
 */
module AdapterFindings {
  import opened Optional
  import opened ItemViewModel
  import opened Notifications
  import opened RecyclerAdapter
  import opened AdapterSync

  /**
   * `addAll(getItems())` as written: the list is appended to itself, and the start
   * of the inserted range is computed after that, as the new size minus the
   * argument's size, which has grown too; so it is always 0 and the length is
   * twice the old size.
   */
  function AddAllOwnList(a: Adapter): (b: Adapter)
    ensures a.items == [] ==> b == a
    ensures a.items != [] ==>
              && b.items == a.items + a.items
              && b.log == a.log + [RangeInserted(0, 2 * |a.items|), ListChanged]
  {
    if a.items == [] then a
    else
      var grown := a.items + a.items;
      var start := |grown| - |grown|;
      a.(items := grown, log := a.log + LastItemRefresh(a, start) + [RangeInserted(start, |grown|), ListChanged])
  }

  /** The view is told about 2n new items where n were added, and ends up with 3n. */
  lemma AddAllOwnListDesyncs(a: Adapter)
    requires a.items != []
    ensures var b := AddAllOwnList(a);
            && Replay(Displayed(a.items), Sent(a, b)).Tracking?
            && |Replay(Displayed(a.items), Sent(a, b)).slots| == 3 * |a.items|
            && !InSync(a, b)
  {
    var b := AddAllOwnList(a);
    var d := Displayed(a.items);
    assert Sent(a, b) == [RangeInserted(0, 2 * |a.items|), ListChanged];
    Replay2(d, RangeInserted(0, 2 * |a.items|), ListChanged);
  }

  /** Appending a snapshot of the own list announces the range at the old end and stays in sync. */
  lemma AddAllOwnListCorrected(a: Adapter)
    requires a.items != []
    ensures var b := AddAll(a, Some(a.items));
            && b.items == a.items + a.items
            && RangeInserted(|a.items|, |a.items|) in Sent(a, b)
            && InSync(a, b)
  {
    var b := AddAll(a, Some(a.items));
    assert b.items == b.items[..|a.items|] + b.items[|a.items|..];
    AddAllSendsOneRange(a, a.items);
    AddAllInSync(a, a.items);
  }

  /**
   * `setItems(getItems(), notifyDataSet)` as written: clearing the backing list
   * also empties the argument, so the inner `addAll` sees an empty list and does
   * nothing; what remains is an empty list and, if asked for, a full refresh.
   */
  function SetItemsOwnList(a: Adapter, notifyDataSet: bool): (b: Adapter)
    ensures a.items == [] ==> b == a
    ensures a.items != [] ==> b.items == []
    ensures a.items != [] ==> b.log == a.log + (if notifyDataSet then [FullRefresh, ListChanged] else [])
  {
    if a.items == [] then a
    else
      var cleared := a.(items := []);
      var b := AddAll(cleared, Some(cleared.items));
      if notifyDataSet then b.(log := b.log + [FullRefresh, ListChanged]) else b
  }

  /** Replacing a non-empty list by itself loses every item. */
  lemma SetItemsOwnListLosesItems(a: Adapter, notifyDataSet: bool)
    requires a.items != []
    ensures SetItemsOwnList(a, notifyDataSet).items != a.items
    ensures ItemCount(SetItemsOwnList(a, notifyDataSet)) == 0
  {
  }

  /** Replacing the list by a snapshot of itself keeps it, and with the refresh keeps the view in sync. */
  lemma SetItemsOwnListCorrected(a: Adapter, notifyDataSet: bool)
    requires a.items != []
    ensures SetItems(a, Some(a.items), notifyDataSet).items == a.items
    ensures notifyDataSet ==> InSync(a, SetItems(a, Some(a.items), notifyDataSet))
  {
    SetItemsInSyncIff(a, a.items, notifyDataSet);
  }
}
