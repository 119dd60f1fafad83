/**
 * The list adapter (`BroadRecyclerAdapter`): the ordered list of records, the
 * last-item-refresh flag, the click listener handed to every bound record, and the
 * log of notifications it has sent. Every mutator is a function from the old state
 * to the new one, appending exactly the notifications the adapter sends, in order.
 */
module RecyclerAdapter {
  import opened Optional
  import opened ItemViewModel
  import opened Notifications

  datatype Adapter = Adapter(items: seq<Item>, updateLastItem: bool, listener: Listener, log: seq<Event>)

  /** The per-instance fields of all records, keyed by record identity. */
  type Records = map<Item, RecordState>

  /** The fields of a record; one never touched is still as constructed. */
  function StateOf(rs: Records, x: Item): (s: RecordState)
  {
    if x in rs then rs[x] else NewRecord
  }

  /** Construction: the initial list, no last-item refresh, nothing sent yet. */
  function NewAdapter(items: seq<Item>, listener: Listener): (a: Adapter)
    ensures a.items == items && a.listener == listener
    ensures !a.updateLastItem && a.log == []
  {
    Adapter(items, false, listener, [])
  }

  function SetLastItemUpdate(a: Adapter, value: bool): (b: Adapter)
    ensures b.updateLastItem == value
    ensures b.items == a.items && b.listener == a.listener && b.log == a.log
  {
    a.(updateLastItem := value)
  }

  // ---------------------------------------------------------------- reads

  function ItemCount(a: Adapter): (n: nat)
    ensures n == |a.items|
  {
    |a.items|
  }

  function GetItems(a: Adapter): (r: seq<Item>)
    ensures |r| == ItemCount(a)
    ensures forall p :: 0 <= p < |r| ==> GetItem(a, p) == Some(r[p])
  {
    a.items
  }

  /** Bounds-checked read: absent beyond the end, never a failure for a non-negative position. */
  function GetItem(a: Adapter, position: nat): (r: Option<Item>)
    ensures r.Some? <==> position < |a.items|
    ensures r.Some? ==> r.value == a.items[position]
  {
    if position < |a.items| then Some(a.items[position]) else None
  }

  /** The view type at a position, 0 beyond the end. */
  function GetItemViewType(a: Adapter, position: nat): (t: int)
    ensures position < |a.items| ==> t == a.items[position].viewType
    ensures position >= |a.items| ==> t == 0
  {
    if |a.items| > position then a.items[position].viewType else 0
  }

  /** The view type is the view type of the item `GetItem` returns, or 0 when there is none. */
  lemma ViewTypeOfItem(a: Adapter, position: nat)
    ensures GetItemViewType(a, position) == match GetItem(a, position)
                                            case Some(x) => x.viewType
                                            case None => 0
  {
  }

  // ---------------------------------------------------------------- bind

  /** The record's fields after `onBindViewHolder`, and the record the holder now displays. */
  datatype BindResult = BindResult(records: Records, bound: Option<Item>)

  /**
   * Binding a holder at a position: beyond the end nothing happens; otherwise the
   * record at that position gets the holder as its back-reference and the adapter's
   * listener as its click listener. No other record and no other field changes.
   */
  function Bind(a: Adapter, holder: HolderId, position: nat, records: Records): (r: BindResult)
    ensures position >= |a.items| ==> r.bound == None && r.records == records
    ensures position < |a.items| ==> r.bound == Some(a.items[position])
    ensures r.bound.Some? ==>
              var s := StateOf(r.records, r.bound.value);
              && s.clickListener == a.listener
              && s.holder == Some(holder)
              && s.position == StateOf(records, r.bound.value).position
    ensures forall x :: r.bound != Some(x) ==> StateOf(r.records, x) == StateOf(records, x)
  {
    if position >= |a.items| then BindResult(records, None)
    else
      var x := a.items[position];
      BindResult(records[x := StateOf(records, x).(clickListener := a.listener, holder := Some(holder))], Some(x))
  }

  /**
   * After a bind, a click on the displayed record reaches the adapter's listener
   * with exactly that record; a record never bound and never given a listener
   * produces no call.
   */
  lemma ClickAfterBindReachesAdapterListener(a: Adapter, holder: HolderId, position: nat, records: Records, view: ViewId)
    requires position < |a.items|
    ensures var r := Bind(a, holder, position, records);
            var x := a.items[position];
            OnItemClick(x, StateOf(r.records, x), view).calls
              == (if a.listener.NoListener? then [] else [ItemClicked(a.listener.id, view, x)])
  {
  }

  lemma NewRecordIgnoresClicks(x: Item, view: ViewId)
    ensures NewRecord.position == 0
    ensures OnItemClick(x, NewRecord, view).calls == []
    ensures OnItemClicks(x, NewRecord, view).calls == []
  {
  }

  // ---------------------------------------------------------------- mutators

  /** The extra `Changed` for the previous last item, sent before an insertion at `at`. */
  function LastItemRefresh(a: Adapter, at: int): (es: seq<Event>)
    ensures |es| <= 1
    ensures es != [] <==> a.updateLastItem && at > 0
    ensures es != [] ==> es == [Changed(at - 1)]
  {
    if a.updateLastItem && at > 0 then [Changed(at - 1)] else []
  }

  /** `add(item)`: append; a null item is a no-op. */
  function Add(a: Adapter, item: Option<Item>): (b: Adapter)
    ensures item.None? ==> b == a
    ensures item.Some? ==>
              && |b.items| == |a.items| + 1
              && b.items[|a.items|] == item.value
              && b.items[..|a.items|] == a.items
              && b.log == a.log + LastItemRefresh(a, |a.items|) + [Inserted(|a.items|), ListChanged]
    ensures b.updateLastItem == a.updateLastItem && b.listener == a.listener
  {
    match item
    case None => a
    case Some(x) =>
      var n := |a.items|;
      a.(items := a.items + [x], log := a.log + LastItemRefresh(a, n) + [Inserted(n), ListChanged])
  }

  /** `add(index, item)`: insert before `index`; the index is not clamped, so it must be in range. */
  function AddAt(a: Adapter, index: int, item: Option<Item>): (b: Adapter)
    requires item.None? || 0 <= index <= |a.items|
    ensures item.None? ==> b == a
    ensures item.Some? ==>
              && |b.items| == |a.items| + 1
              && b.items[index] == item.value
              && (forall j :: 0 <= j < index ==> b.items[j] == a.items[j])
              && (forall j :: index <= j < |a.items| ==> b.items[j + 1] == a.items[j])
              && b.log == a.log + LastItemRefresh(a, index) + [Inserted(index), ListChanged]
    ensures b.updateLastItem == a.updateLastItem && b.listener == a.listener
  {
    match item
    case None => a
    case Some(x) =>
      a.(items := a.items[..index] + [x] + a.items[index..],
         log := a.log + LastItemRefresh(a, index) + [Inserted(index), ListChanged])
  }

  /** `addToTop(item)`: insert at the front, never with a last-item refresh. */
  function AddToTop(a: Adapter, item: Option<Item>): (b: Adapter)
    ensures item.None? ==> b == a
    ensures item.Some? ==>
              && b.items == [item.value] + a.items
              && b.log == a.log + [Inserted(0), ListChanged]
    ensures b.updateLastItem == a.updateLastItem && b.listener == a.listener
  {
    match item
    case None => a
    case Some(x) => a.(items := [x] + a.items, log := a.log + [Inserted(0), ListChanged])
  }

  /** `addToTop` is `add(0, item)`: inserting at the front never refreshes a previous item. */
  lemma AddToTopIsAddAtZero(a: Adapter, item: Option<Item>)
    ensures AddToTop(a, item) == AddAt(a, 0, item)
  {
    if item.Some? {
      assert a.items[..0] + [item.value] + a.items[0..] == [item.value] + a.items;
    }
  }

  /** `addAll(items)`: append in order with one range notification; null or empty is a no-op. */
  function AddAll(a: Adapter, items: Option<seq<Item>>): (b: Adapter)
    ensures items.None? || items.value == [] ==> b == a
    ensures items.Some? && items.value != [] ==>
              && |b.items| == |a.items| + |items.value|
              && b.items[..|a.items|] == a.items
              && b.items[|a.items|..] == items.value
              && b.log == a.log + LastItemRefresh(a, |a.items|)
                                + [RangeInserted(|a.items|, |items.value|), ListChanged]
    ensures b.updateLastItem == a.updateLastItem && b.listener == a.listener
  {
    if items.None? || |items.value| == 0 then a
    else
      var n := |a.items|;
      a.(items := a.items + items.value,
         log := a.log + LastItemRefresh(a, n) + [RangeInserted(n, |items.value|), ListChanged])
  }

  /** However many items a bulk append adds, it sends at most three notifications and one range. */
  lemma AddAllSendsOneRange(a: Adapter, xs: seq<Item>)
    requires xs != []
    ensures var sent := AddAll(a, Some(xs)).log[|a.log|..];
            && |sent| <= 3
            && |set k | 0 <= k < |sent| && sent[k].RangeInserted?| == 1
            && RangeInserted(|a.items|, |xs|) in sent
  {
    var sent := AddAll(a, Some(xs)).log[|a.log|..];
    var r := if a.updateLastItem && |a.items| > 0 then 1 else 0;
    assert sent == LastItemRefresh(a, |a.items|) + [RangeInserted(|a.items|, |xs|), ListChanged];
    assert sent[r] == RangeInserted(|a.items|, |xs|);
    assert (set k | 0 <= k < |sent| && sent[k].RangeInserted?) == {r};
  }

  /**
   * `setItems(items, notifyDataSet)`: a null or empty argument leaves the list as it
   * is. Otherwise the list is emptied without a notification and refilled through
   * `addAll`; a full refresh and a second list-changed follow only when asked for.
   */
  function SetItems(a: Adapter, items: Option<seq<Item>>, notifyDataSet: bool): (b: Adapter)
    ensures items.None? || items.value == [] ==> b == a
    ensures items.Some? && items.value != [] ==>
              && b.items == items.value
              && b.log == a.log + [RangeInserted(0, |items.value|), ListChanged]
                                + (if notifyDataSet then [FullRefresh, ListChanged] else [])
    ensures b.updateLastItem == a.updateLastItem && b.listener == a.listener
  {
    if items.None? || |items.value| == 0 then a
    else
      var b := AddAll(a.(items := []), items);
      if notifyDataSet then b.(log := b.log + [FullRefresh, ListChanged]) else b
  }

  /** `clear()`: the list becomes empty, and a full refresh is sent every time, even when it was empty. */
  function Clear(a: Adapter): (b: Adapter)
    ensures b.items == []
    ensures b.log == a.log + [FullRefresh, ListChanged]
    ensures b.updateLastItem == a.updateLastItem && b.listener == a.listener
  {
    a.(items := [], log := a.log + [FullRefresh, ListChanged])
  }

  /** Clearing twice leaves the same contents as clearing once, but notifies twice. */
  lemma ClearTwice(a: Adapter)
    ensures Clear(Clear(a)).items == Clear(a).items
    ensures |Clear(Clear(a)).log| == |Clear(a).log| + 2
  {
  }

  /** `indexOf`: the first position holding `x`, or -1. */
  function IndexOf(s: seq<Item>, x: Item): (r: int)
    ensures -1 <= r < |s|
    ensures r == -1 <==> x !in s
    ensures 0 <= r ==> s[r] == x && forall j :: 0 <= j < r ==> s[j] != x
  {
    if s == [] then -1
    else if s[0] == x then 0
    else
      var k := IndexOf(s[1..], x);
      if k < 0 then -1 else k + 1
  }

  /**
   * `remove(item)`: delete the first occurrence and send removed, list-changed and
   * (with last-item refresh, if the list is not now empty) a refresh of the new
   * last item. An absent item changes nothing and sends nothing.
   */
  function Remove(a: Adapter, item: Item): (b: Adapter)
    ensures item !in a.items ==> b == a
    ensures item in a.items ==>
              exists p :: 0 <= p < |a.items|
                && a.items[p] == item && item !in a.items[..p]
                && b.items == a.items[..p] + a.items[p + 1..]
                && b.log == a.log + [Removed(p), ListChanged]
                                  + (if a.updateLastItem && |b.items| > 0 then [Changed(|b.items| - 1)] else [])
    ensures b.updateLastItem == a.updateLastItem && b.listener == a.listener
  {
    var p := IndexOf(a.items, item);
    if p < 0 then a
    else
      var rest := a.items[..p] + a.items[p + 1..];
      a.(items := rest,
         log := a.log + [Removed(p), ListChanged]
                      + (if a.updateLastItem && |rest| > 0 then [Changed(|rest| - 1)] else []))
  }

  /** Removal takes out exactly one copy of the item and keeps the others. */
  lemma RemoveTakesOneCopy(a: Adapter, item: Item)
    requires item in a.items
    ensures multiset(Remove(a, item).items) + multiset{item} == multiset(a.items)
  {
    var p := IndexOf(a.items, item);
    assert a.items == a.items[..p] + [item] + a.items[p + 1..];
  }
}
