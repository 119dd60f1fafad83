/** Concrete call sequences on small lists, showing the notification order as the adapter sends it. */
module AdapterScenarios {
  import opened Optional
  import opened ItemViewModel
  import opened Notifications
  import opened RecyclerAdapter

  const A: Item := Item(1, 100)
  const B: Item := Item(2, 100)
  const C: Item := Item(3, 200)
  const D: Item := Item(4, 200)

  /**
   * Append A, append B, insert C at the front, remove A, clear: the list reads
   * [C, A, B], then [C, B], then is empty; the clear sends a full refresh.
   */
  lemma AppendInsertRemoveClear()
    ensures var a0 := NewAdapter([], NoListener);
            var a3 := AddAt(Add(Add(a0, Some(A)), Some(B)), 0, Some(C));
            var a4 := Remove(a3, A);
            var a5 := Clear(a4);
            && a3.items == [C, A, B] && ItemCount(a3) == 3
            && a4.items == [C, B]
            && ItemCount(a5) == 0
            && a5.log == [Inserted(0), ListChanged, Inserted(1), ListChanged, Inserted(0), ListChanged,
                          Removed(1), ListChanged, FullRefresh, ListChanged]
  {
    var a0 := NewAdapter([], NoListener);
    var a3 := AddAt(Add(Add(a0, Some(A)), Some(B)), 0, Some(C));
    assert a3.items == [C, A, B];
    assert IndexOf(a3.items, A) == 1;
  }

  /**
   * With last-item refresh on, appending to a three-item list refreshes the old
   * last item before announcing the insertion; appending to an empty list does not.
   */
  lemma LastItemRefreshOrder()
    ensures var a := SetLastItemUpdate(NewAdapter([A, B, C], NoListener), true);
            Add(a, Some(D)).log == [Changed(2), Inserted(3), ListChanged]
    ensures var e := SetLastItemUpdate(NewAdapter([], NoListener), true);
            Add(e, Some(D)).log == [Inserted(0), ListChanged]
  {
  }

  /** A bind for a position that a removal has just invalidated does nothing. */
  lemma StaleBindIsIgnored(records: Records)
    ensures var a := Remove(NewAdapter([A, B, C, D], Base(7)), D);
            ItemCount(a) == 3 && Bind(a, 0, 5, records) == BindResult(records, None)
  {
    assert IndexOf([A, B, C, D], D) == 3;
  }

  /** A bulk append of nothing, or of null, changes nothing and sends nothing. */
  lemma EmptyBulkAppendIsNoOp(a: Adapter)
    ensures AddAll(a, Some([])) == a && AddAll(a, None) == a
  {
  }

  /** Clearing an empty list still sends a full refresh and a list-changed. */
  lemma ClearOfEmptyStillNotifies()
    ensures Clear(NewAdapter([], NoListener)).log == [FullRefresh, ListChanged]
  {
  }

  /** Removing a record removes that instance only, not one with the same view type. */
  lemma RemoveIsByIdentity()
    ensures Remove(NewAdapter([A, B, A], NoListener), B).items == [A, A]
    ensures Remove(NewAdapter([A, B, A], NoListener), A).items == [B, A]
  {
    assert IndexOf([A, B, A], B) == 1;
    assert IndexOf([A, B, A], A) == 0;
  }
}
