/**
 * The item record every list entry extends (`BaseItemViewModel`): its identity and
 * view type, the mutable bookkeeping fields the adapter writes at bind time, and the
 * routing of single and long clicks to the configured listener.
 */
module ItemViewModel {
  import opened Optional

  /** A widget the user interacts with; opaque. */
  type ViewId = nat

  /** A view holder, i.e. the target of a record's adapter back-reference; opaque. */
  type HolderId = nat

  /**
   * One record instance. Records are objects compared by identity, so the
   * instance is its `id`; `viewType` is the record's constant layout id.
   */
  datatype Item = Item(id: nat, viewType: int)

  /**
   * The click listener a record may hold: none, a base listener that only
   * receives single clicks, or a long-click listener that receives both.
   */
  datatype Listener = NoListener | Base(id: nat) | LongClick(id: nat)

  /** The mutable fields of a record instance. */
  datatype RecordState = RecordState(position: int, clickListener: Listener, holder: Option<HolderId>)

  /** The fields of a freshly constructed record. */
  const NewRecord: RecordState := RecordState(0, NoListener, None)

  /** A call made into the listener with the given id. */
  datatype Callback =
    | ItemClicked(listener: nat, view: ViewId, item: Item)
    | ItemLongClicked(listener: nat, view: ViewId, item: Item)

  /** The record's fields after a handler ran, and the listener calls it made, in order. */
  datatype Dispatch = Dispatch(record: RecordState, calls: seq<Callback>)

  /** Single click: forwarded to any listener, whatever its capability. */
  function OnItemClick(self: Item, state: RecordState, view: ViewId): (d: Dispatch)
    ensures d.record == state
    ensures |d.calls| <= 1
    ensures d.calls == [] <==> state.clickListener.NoListener?
    ensures forall c <- d.calls :: c.ItemClicked? && c.view == view && c.item == self
                                   && c.listener == state.clickListener.id
  {
    match state.clickListener
    case NoListener => Dispatch(state, [])
    case Base(id) => Dispatch(state, [ItemClicked(id, view, self)])
    case LongClick(id) => Dispatch(state, [ItemClicked(id, view, self)])
  }

  /** Long click: forwarded only to a listener that implements the long-click callback. */
  function OnItemClicks(self: Item, state: RecordState, view: ViewId): (d: Dispatch)
    ensures d.record == state
    ensures |d.calls| <= 1
    ensures d.calls != [] <==> state.clickListener.LongClick?
    ensures forall c <- d.calls :: c.ItemLongClicked? && c.view == view && c.item == self
                                   && c.listener == state.clickListener.id
  {
    match state.clickListener
    case LongClick(id) => Dispatch(state, [ItemLongClicked(id, view, self)])
    case _ => Dispatch(state, [])
  }

  /** Neither handler ever reaches the other handler's callback. */
  lemma NoCrossDispatch(self: Item, state: RecordState, view: ViewId)
    ensures forall c <- OnItemClick(self, state, view).calls :: !c.ItemLongClicked?
    ensures forall c <- OnItemClicks(self, state, view).calls :: !c.ItemClicked?
  {
  }
}
