/**
 * Sequences of adapter calls as made by a single UI thread, and the property that
 * the recycling view stays in agreement with the adapter across a whole run.
 */
module AdapterRuns {
  import opened Optional
  import opened ItemViewModel
  import opened Notifications
  import RecyclerAdapter
  import opened AdapterSync
  import AdapterFindings

  type Adapter = RecyclerAdapter.Adapter

  /**
   * One public call on the adapter. A list argument is a list distinct from the
   * backing one, except in the two calls that pass `getItems()` back in.
   */
  datatype Op =
    | SetLastItemUpdate(value: bool)
    | Add(item: Option<Item>)
    | AddAt(index: int, item: Option<Item>)
    | AddToTop(item: Option<Item>)
    | AddAll(items: Option<seq<Item>>)
    | SetItems(items: Option<seq<Item>>, notifyDataSet: bool)
    | Clear
    | Remove(target: Item)
    | AddAllOwnList
    | SetItemsOwnList(notifyDataSet: bool)

  /** The call does not throw: only `add(index, item)` with a real item can, on an out-of-range index. */
  predicate Allowed(a: Adapter, op: Op)
  {
    op.AddAt? ==> op.item.None? || 0 <= op.index <= |a.items|
  }

  function Step(a: Adapter, op: Op): (b: Adapter)
    requires Allowed(a, op)
    ensures |a.log| <= |b.log| && b.log[..|a.log|] == a.log
  {
    match op
    case SetLastItemUpdate(v) => RecyclerAdapter.SetLastItemUpdate(a, v)
    case Add(x) => RecyclerAdapter.Add(a, x)
    case AddAt(i, x) => RecyclerAdapter.AddAt(a, i, x)
    case AddToTop(x) => RecyclerAdapter.AddToTop(a, x)
    case AddAll(xs) => RecyclerAdapter.AddAll(a, xs)
    case SetItems(xs, n) => RecyclerAdapter.SetItems(a, xs, n)
    case Clear => RecyclerAdapter.Clear(a)
    case Remove(x) => RecyclerAdapter.Remove(a, x)
    case AddAllOwnList => AdapterFindings.AddAllOwnList(a)
    case SetItemsOwnList(n) => AdapterFindings.SetItemsOwnList(a, n)
  }

  /** Every call of the run is allowed in the state it is made in. */
  predicate Runnable(a: Adapter, ops: seq<Op>)
    decreases |ops|
  {
    ops == [] || (Allowed(a, ops[0]) && Runnable(Step(a, ops[0]), ops[1..]))
  }

  function Run(a: Adapter, ops: seq<Op>): (b: Adapter)
    requires Runnable(a, ops)
    ensures |a.log| <= |b.log| && b.log[..|a.log|] == a.log
    decreases |ops|
  {
    if ops == [] then a else Run(Step(a, ops[0]), ops[1..])
  }

  /** `setItems` on a non-empty list without the full refresh. */
  predicate SilentReplace(a: Adapter, op: Op)
  {
    op.SetItems? && op.items.Some? && op.items.value != [] && !op.notifyDataSet && a.items != []
  }

  /**
   * The calls whose notifications leave the view behind: a silent replace, and,
   * on a non-empty list, `addAll(getItems())` and `setItems(getItems(), false)`.
   */
  predicate Desyncs(a: Adapter, op: Op)
  {
    || SilentReplace(a, op)
    || (op.AddAllOwnList? && a.items != [])
    || (op.SetItemsOwnList? && !op.notifyDataSet && a.items != [])
  }

  predicate NoDesync(a: Adapter, ops: seq<Op>)
    requires Runnable(a, ops)
    decreases |ops|
  {
    ops == [] || (!Desyncs(a, ops[0]) && NoDesync(Step(a, ops[0]), ops[1..]))
  }

  /** A single call keeps the view in sync exactly when it is not one of the desyncing calls. */
  lemma StepInSync(a: Adapter, op: Op)
    requires Allowed(a, op)
    ensures InSync(a, Step(a, op)) <==> !Desyncs(a, op)
  {
    var b := Step(a, op);
    match op
    case Add(Some(x)) => AddInSync(a, x);
    case AddAt(i, Some(x)) => AddAtInSync(a, i, x);
    case AddToTop(Some(x)) => AddToTopInSync(a, x);
    case AddAll(Some(xs)) =>
      if xs != [] { AddAllInSync(a, xs); } else { assert Sent(a, b) == []; }
    case SetItems(Some(xs), n) =>
      if xs != [] { SetItemsInSyncIff(a, xs, n); } else { assert Sent(a, b) == []; }
    case Clear => ClearInSync(a);
    case Remove(x) => RemoveInSync(a, x);
    case AddAllOwnList =>
      if a.items != [] { AdapterFindings.AddAllOwnListDesyncs(a); } else { assert Sent(a, b) == []; }
    case SetItemsOwnList(n) =>
      if a.items == [] {
        assert Sent(a, b) == [];
      } else if n {
        assert Sent(a, b) == [FullRefresh, ListChanged];
        Replay2(Displayed(a.items), FullRefresh, ListChanged);
      } else {
        assert Sent(a, b) == [];
        assert |Displayed(a.items).slots| != |b.items|;
      }
    case _ => assert Sent(a, b) == [];
  }

  /**
   * Across any run without a desyncing call, the notifications sent, replayed over
   * the view of the initial list, leave the view in agreement with the final list:
   * same count, and every position not marked stale shows the record now there.
   */
  lemma {:induction false} RunInSync(a: Adapter, ops: seq<Op>)
    requires Runnable(a, ops) && NoDesync(a, ops)
    ensures var b := Run(a, ops); Agrees(Replay(Displayed(a.items), b.log[|a.log|..]), b.items)
    decreases |ops|
  {
    var b := Run(a, ops);
    if ops == [] {
      assert b.log[|a.log|..] == [];
    } else {
      var a1 := Step(a, ops[0]);
      var e1 := a1.log[|a.log|..];
      var rest := b.log[|a1.log|..];
      assert b.log[|a.log|..] == e1 + rest by {
        assert b.log[..|a1.log|] == a1.log;
      }
      StepInSync(a, ops[0]);
      RunInSync(a1, ops[1..]);
      var s1 := Replay(Displayed(a.items), e1);
      ReplayAppend(Displayed(a.items), e1, rest);
      if s1.Resynced? {
        ReplayFromResynced(rest);
      } else {
        AgreeingIsStalerThanDisplayed(s1, a1.items);
        ReplayStaler(s1, Displayed(a1.items), rest);
        AgreesWhenStaler(Replay(s1, rest), Replay(Displayed(a1.items), rest), b.items);
      }
    }
  }

  /**
   * While no full refresh was sent, counting the announced insertions and removals
   * gives the adapter's item count.
   */
  lemma RunCountsAgree(a: Adapter, ops: seq<Op>)
    requires Runnable(a, ops) && NoDesync(a, ops)
    ensures var b := Run(a, ops);
            var s := Replay(Displayed(a.items), b.log[|a.log|..]);
            s.Tracking? ==> CountAfter(|a.items|, b.log[|a.log|..]) == RecyclerAdapter.ItemCount(b)
  {
    var b := Run(a, ops);
    RunInSync(a, ops);
    if Replay(Displayed(a.items), b.log[|a.log|..]).Tracking? {
      TrackingCountsLikeCountAfter(Displayed(a.items).slots, b.log[|a.log|..]);
    }
  }
}
