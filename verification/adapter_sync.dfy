/**
 * The notifications each mutator sends keep the recycling view in agreement with
 * the adapter's list: replaying them over the view of the old list yields a view
 * whose count is the new count and whose non-stale positions show the new items.
 */
module AdapterSync {
  import opened Optional
  import opened ItemViewModel
  import opened Notifications
  import opened RecyclerAdapter

  /** The notifications sent while going from `a` to `b`. */
  function Sent(a: Adapter, b: Adapter): (es: seq<Event>)
    requires |a.log| <= |b.log|
  {
    b.log[|a.log|..]
  }

  /** The mutator's notifications bring the view of `a`'s list in line with `b`'s list. */
  predicate InSync(a: Adapter, b: Adapter)
    requires |a.log| <= |b.log|
  {
    Agrees(Replay(Displayed(a.items), Sent(a, b)), b.items)
  }

  lemma Replay1(s: Surface, e: Event)
    ensures Replay(s, [e]) == Apply(s, e)
  {
    assert [e][1..] == [];
  }

  lemma Replay2(s: Surface, e1: Event, e2: Event)
    ensures Replay(s, [e1, e2]) == Apply(Apply(s, e1), e2)
  {
    assert [e1, e2][1..] == [e2];
    Replay1(Apply(s, e1), e2);
  }

  lemma Replay3(s: Surface, e1: Event, e2: Event, e3: Event)
    ensures Replay(s, [e1, e2, e3]) == Apply(Apply(Apply(s, e1), e2), e3)
  {
    assert [e1, e2, e3][1..] == [e2, e3];
    Replay2(Apply(s, e1), e2, e3);
  }

  /** Inserting one stale slot at `index` into a view that agrees with `items` agrees with the inserted list. */
  lemma InsertKeepsAgreement(slots: seq<Slot>, items: seq<Item>, index: int, x: Item)
    requires Agrees(Tracking(slots), items) && 0 <= index <= |items|
    ensures Agrees(Apply(Tracking(slots), Inserted(index)), items[..index] + [x] + items[index..])
  {
    var s' := slots[..index] + [Stale] + slots[index..];
    var t' := items[..index] + [x] + items[index..];
    forall j | 0 <= j < |s'| && s'[j].Shown? ensures s'[j].item == t'[j] {
      if j > index { assert s'[j] == slots[j - 1] && t'[j] == items[j - 1]; }
    }
  }

  /** Marking a position stale never breaks agreement. */
  lemma ChangedKeepsAgreement(s: Surface, items: seq<Item>, i: int)
    requires Agrees(s, items) && s.Tracking? && 0 <= i < |s.slots|
    ensures Apply(s, Changed(i)) == Tracking(s.slots[i := Stale])
    ensures Agrees(Apply(s, Changed(i)), items)
  {
  }

  lemma AddAtInSync(a: Adapter, index: int, x: Item)
    requires 0 <= index <= |a.items|
    ensures var b := AddAt(a, index, Some(x)); |a.log| <= |b.log| && InSync(a, b)
  {
    var b := AddAt(a, index, Some(x));
    var d := Displayed(a.items);
    var t := a.items[..index] + [x] + a.items[index..];
    assert b.items == t;
    if a.updateLastItem && index > 0 {
      assert Sent(a, b) == [Changed(index - 1), Inserted(index), ListChanged];
      Replay3(d, Changed(index - 1), Inserted(index), ListChanged);
      ChangedKeepsAgreement(d, a.items, index - 1);
      var s1 := Apply(d, Changed(index - 1));
      InsertKeepsAgreement(s1.slots, a.items, index, x);
      assert Agrees(Apply(s1, Inserted(index)), t);
    } else {
      assert Sent(a, b) == [Inserted(index), ListChanged];
      Replay2(d, Inserted(index), ListChanged);
      InsertKeepsAgreement(d.slots, a.items, index, x);
      assert Agrees(Apply(d, Inserted(index)), t);
    }
  }

  lemma AddInSync(a: Adapter, x: Item)
    ensures var b := Add(a, Some(x)); |a.log| <= |b.log| && InSync(a, b)
  {
    assert Add(a, Some(x)) == AddAt(a, |a.items|, Some(x)) by {
      assert a.items[..|a.items|] + [x] + a.items[|a.items|..] == a.items + [x];
    }
    AddAtInSync(a, |a.items|, x);
  }

  lemma AddToTopInSync(a: Adapter, x: Item)
    ensures var b := AddToTop(a, Some(x)); |a.log| <= |b.log| && InSync(a, b)
  {
    AddToTopIsAddAtZero(a, Some(x));
    AddAtInSync(a, 0, x);
  }

  lemma AddAllInSync(a: Adapter, xs: seq<Item>)
    requires xs != []
    ensures var b := AddAll(a, Some(xs)); |a.log| <= |b.log| && InSync(a, b)
  {
    var b := AddAll(a, Some(xs));
    var n := |a.items|;
    var d := Displayed(a.items);
    var slots := if a.updateLastItem && n > 0 then d.slots[n - 1 := Stale] else d.slots;
    if a.updateLastItem && n > 0 {
      assert Sent(a, b) == [Changed(n - 1), RangeInserted(n, |xs|), ListChanged];
      Replay3(d, Changed(n - 1), RangeInserted(n, |xs|), ListChanged);
    } else {
      assert Sent(a, b) == [RangeInserted(n, |xs|), ListChanged];
      Replay2(d, RangeInserted(n, |xs|), ListChanged);
    }
    var s' := slots[..n] + Stales(|xs|) + slots[n..];
    assert Replay(d, Sent(a, b)) == Tracking(s');
    assert b.items == a.items + xs;
    forall j | 0 <= j < |s'| && s'[j].Shown? ensures s'[j].item == b.items[j] {
      assert j < n;
    }
  }

  /**
   * `setItems` keeps the view in sync exactly when it asks for the full refresh or
   * the list was empty before: without the refresh the view is only told about the
   * inserted range and still counts the old items, which were cleared silently.
   */
  lemma SetItemsInSyncIff(a: Adapter, xs: seq<Item>, notifyDataSet: bool)
    requires xs != []
    ensures var b := SetItems(a, Some(xs), notifyDataSet);
            |a.log| <= |b.log| && (InSync(a, b) <==> notifyDataSet || a.items == [])
  {
    var b := SetItems(a, Some(xs), notifyDataSet);
    var d := Displayed(a.items);
    var s1 := Apply(d, RangeInserted(0, |xs|));
    assert s1 == Tracking(Stales(|xs|) + d.slots) by {
      assert d.slots[..0] == [] && d.slots[0..] == d.slots;
    }
    if notifyDataSet {
      assert Sent(a, b) == [RangeInserted(0, |xs|), ListChanged] + [FullRefresh, ListChanged];
      ReplayAppend(d, [RangeInserted(0, |xs|), ListChanged], [FullRefresh, ListChanged]);
      Replay2(d, RangeInserted(0, |xs|), ListChanged);
      Replay2(s1, FullRefresh, ListChanged);
    } else {
      assert Sent(a, b) == [RangeInserted(0, |xs|), ListChanged];
      Replay2(d, RangeInserted(0, |xs|), ListChanged);
      assert Replay(d, Sent(a, b)) == s1;
      if a.items == [] {
        assert Stales(|xs|) + d.slots == Stales(|xs|);
      }
    }
  }

  lemma ClearInSync(a: Adapter)
    ensures var b := Clear(a); |a.log| <= |b.log| && InSync(a, b)
  {
    var b := Clear(a);
    assert Sent(a, b) == [FullRefresh, ListChanged];
    Replay2(Displayed(a.items), FullRefresh, ListChanged);
  }

  /** Deleting position `p` from a view that agrees with `items` agrees with the shortened list. */
  lemma RemoveKeepsAgreement(slots: seq<Slot>, items: seq<Item>, p: int)
    requires Agrees(Tracking(slots), items) && 0 <= p < |items|
    ensures Apply(Tracking(slots), Removed(p)) == Tracking(slots[..p] + slots[p + 1..])
    ensures Agrees(Apply(Tracking(slots), Removed(p)), items[..p] + items[p + 1..])
  {
    var s1 := slots[..p] + slots[p + 1..];
    var rest := items[..p] + items[p + 1..];
    forall j | 0 <= j < |s1| && s1[j].Shown? ensures s1[j].item == rest[j] {
      if j >= p { assert s1[j] == slots[j + 1] && rest[j] == items[j + 1]; }
    }
  }

  lemma RemoveInSync(a: Adapter, x: Item)
    ensures var b := Remove(a, x); |a.log| <= |b.log| && InSync(a, b)
  {
    var b := Remove(a, x);
    var d := Displayed(a.items);
    if x in a.items {
      var p := IndexOf(a.items, x);
      var rest := a.items[..p] + a.items[p + 1..];
      assert b.items == rest;
      RemoveKeepsAgreement(d.slots, a.items, p);
      var s1 := Apply(d, Removed(p));
      if a.updateLastItem && |rest| > 0 {
        assert Sent(a, b) == [Removed(p), ListChanged, Changed(|rest| - 1)];
        Replay3(d, Removed(p), ListChanged, Changed(|rest| - 1));
        ChangedKeepsAgreement(s1, rest, |rest| - 1);
      } else {
        assert Sent(a, b) == [Removed(p), ListChanged];
        Replay2(d, Removed(p), ListChanged);
      }
    } else {
      assert Sent(a, b) == [];
    }
  }
}
