/**
 * The change notifications the adapter sends, and a model of the bookkeeping the
 * recycling list view keeps from them. The view remembers, per position, either the
 * record it last displayed there or that the position is stale and must be re-bound.
 * The notifications are correct exactly when, after replaying them, the view's idea
 * of the list agrees with the adapter's list.
 */
module Notifications {
  import opened ItemViewModel

  /**
   * Fine-grained notifications to the recycling surface (`notifyItemInserted`,
   * `notifyItemRangeInserted`, `notifyItemRemoved`, `notifyItemChanged`,
   * `notifyDataSetChanged`) and the coarse list-changed signal to observers.
   */
  datatype Event =
    | Inserted(position: int)
    | RangeInserted(start: int, count: int)
    | Removed(position: int)
    | Changed(position: int)
    | FullRefresh
    | ListChanged

  /** What the view believes about one position. */
  datatype Slot = Shown(item: Item) | Stale

  /**
   * The view's belief about the whole list: positional tracking, a full resync
   * (it will re-query everything), or broken (a notification named a position
   * that does not exist).
   */
  datatype Surface = Tracking(slots: seq<Slot>) | Resynced | Broken

  function Stales(n: nat): (s: seq<Slot>)
    ensures |s| == n && forall j :: 0 <= j < n ==> s[j] == Stale
  {
    seq(n, _ => Stale)
  }

  /** The view after it displayed every item of `items`. */
  function Displayed(items: seq<Item>): (s: Surface)
    ensures s.Tracking? && |s.slots| == |items|
    ensures forall j :: 0 <= j < |items| ==> s.slots[j] == Shown(items[j])
  {
    Tracking(seq(|items|, j requires 0 <= j < |items| => Shown(items[j])))
  }

  /** How one notification moves the view's bookkeeping. */
  function Apply(s: Surface, e: Event): (s': Surface)
  {
    match s
    case Resynced => Resynced
    case Broken => Broken
    case Tracking(slots) =>
      match e
      case Inserted(i) =>
        if 0 <= i <= |slots| then Tracking(slots[..i] + [Stale] + slots[i..]) else Broken
      case RangeInserted(i, n) =>
        if 0 <= i <= |slots| && 0 <= n then Tracking(slots[..i] + Stales(n) + slots[i..]) else Broken
      case Removed(i) =>
        if 0 <= i < |slots| then Tracking(slots[..i] + slots[i + 1..]) else Broken
      case Changed(i) =>
        if 0 <= i < |slots| then Tracking(slots[i := Stale]) else Broken
      case FullRefresh => Resynced
      case ListChanged => s
  }

  /** Notifications delivered in order. */
  function Replay(s: Surface, es: seq<Event>): (s': Surface)
    decreases |es|
  {
    if es == [] then s else Replay(Apply(s, es[0]), es[1..])
  }

  /**
   * The view agrees with the adapter's `items`: after a resync trivially; while
   * tracking, it has the same count and every non-stale position shows the item
   * the adapter now holds there.
   */
  predicate Agrees(s: Surface, items: seq<Item>)
  {
    match s
    case Resynced => true
    case Broken => false
    case Tracking(slots) =>
      |slots| == |items| && forall j :: 0 <= j < |slots| && slots[j].Shown? ==> slots[j].item == items[j]
  }

  /** `v` is `w` with possibly more positions marked stale. */
  predicate StalerThan(v: Surface, w: Surface)
  {
    match (v, w)
    case (Resynced, Resynced) => true
    case (Broken, Broken) => true
    case (Tracking(a), Tracking(b)) => |a| == |b| && forall j :: 0 <= j < |a| ==> a[j] == Stale || a[j] == b[j]
    case _ => false
  }

  /** The counting model of the view: the item count it derives from the notifications alone. */
  function CountAfter(count: int, es: seq<Event>): (n: int)
    decreases |es|
  {
    if es == [] then count
    else
      var c := match es[0]
        case Inserted(_) => count + 1
        case RangeInserted(_, n) => count + n
        case Removed(_) => count - 1
        case _ => count;
      CountAfter(c, es[1..])
  }

  lemma {:induction false} ReplayAppend(s: Surface, es1: seq<Event>, es2: seq<Event>)
    ensures Replay(s, es1 + es2) == Replay(Replay(s, es1), es2)
    decreases |es1|
  {
    if es1 == [] {
      assert es1 + es2 == es2;
    } else {
      assert (es1 + es2)[1..] == es1[1..] + es2;
      ReplayAppend(Apply(s, es1[0]), es1[1..], es2);
    }
  }

  lemma {:induction false} ReplayFromResynced(es: seq<Event>)
    ensures Replay(Resynced, es) == Resynced
    decreases |es|
  {
    if es != [] {
      ReplayFromResynced(es[1..]);
    }
  }

  lemma {:induction false} ReplayFromBroken(es: seq<Event>)
    ensures Replay(Broken, es) == Broken
    decreases |es|
  {
    if es != [] {
      ReplayFromBroken(es[1..]);
    }
  }

  /** Validity of a notification depends only on the count, so staleness survives every event. */
  lemma ApplyStaler(v: Surface, w: Surface, e: Event)
    requires StalerThan(v, w)
    ensures StalerThan(Apply(v, e), Apply(w, e))
  {
    if v.Tracking? {
      var a, b := v.slots, w.slots;
      match e
      case Inserted(i) =>
        if 0 <= i <= |a| {
          var a', b' := a[..i] + [Stale] + a[i..], b[..i] + [Stale] + b[i..];
          assert forall j :: 0 <= j < |a'| ==> a'[j] == Stale || a'[j] == b'[j] by {
            forall j | 0 <= j < |a'| ensures a'[j] == Stale || a'[j] == b'[j] {
              if j > i { assert a'[j] == a[j - 1] && b'[j] == b[j - 1]; }
            }
          }
        }
      case RangeInserted(i, n) =>
        if 0 <= i <= |a| && 0 <= n {
          var a', b' := a[..i] + Stales(n) + a[i..], b[..i] + Stales(n) + b[i..];
          assert forall j :: 0 <= j < |a'| ==> a'[j] == Stale || a'[j] == b'[j] by {
            forall j | 0 <= j < |a'| ensures a'[j] == Stale || a'[j] == b'[j] {
              if j >= i + n { assert a'[j] == a[j - n] && b'[j] == b[j - n]; }
            }
          }
        }
      case Removed(i) =>
        if 0 <= i < |a| {
          var a', b' := a[..i] + a[i + 1..], b[..i] + b[i + 1..];
          assert forall j :: 0 <= j < |a'| ==> a'[j] == Stale || a'[j] == b'[j] by {
            forall j | 0 <= j < |a'| ensures a'[j] == Stale || a'[j] == b'[j] {
              if j >= i { assert a'[j] == a[j + 1] && b'[j] == b[j + 1]; }
            }
          }
        }
      case Changed(i) =>
      case FullRefresh =>
      case ListChanged =>
    }
  }

  lemma {:induction false} ReplayStaler(v: Surface, w: Surface, es: seq<Event>)
    requires StalerThan(v, w)
    ensures StalerThan(Replay(v, es), Replay(w, es))
    decreases |es|
  {
    if es != [] {
      ApplyStaler(v, w, es[0]);
      ReplayStaler(Apply(v, es[0]), Apply(w, es[0]), es[1..]);
    }
  }

  /** A staler view agrees with whatever the less stale one agrees with. */
  lemma AgreesWhenStaler(v: Surface, w: Surface, items: seq<Item>)
    requires StalerThan(v, w) && Agrees(w, items)
    ensures Agrees(v, items)
  {
  }

  /** A view that agrees with `items` is a staler copy of the freshly displayed list. */
  lemma AgreeingIsStalerThanDisplayed(s: Surface, items: seq<Item>)
    requires Agrees(s, items) && s.Tracking?
    ensures StalerThan(s, Displayed(items))
  {
  }

  /**
   * While no full refresh intervenes, the positional bookkeeping counts exactly
   * as the counting model does.
   */
  lemma {:induction false} TrackingCountsLikeCountAfter(slots: seq<Slot>, es: seq<Event>)
    requires Replay(Tracking(slots), es).Tracking?
    ensures |Replay(Tracking(slots), es).slots| == CountAfter(|slots|, es)
    decreases |es|
  {
    if es == [] {
    } else {
      var s1 := Apply(Tracking(slots), es[0]);
      if s1.Resynced? {
        ReplayFromResynced(es[1..]);
      } else if s1.Broken? {
        ReplayFromBroken(es[1..]);
      } else {
        TrackingCountsLikeCountAfter(s1.slots, es[1..]);
      }
    }
  }
}
