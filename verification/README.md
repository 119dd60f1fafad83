# BroadRecyclerAdapter in Dafny

A model of the data side of BroadRecyclerAdapter, a multi-view-type RecyclerView
adapter for Android, and of its spacing decoration:

- **the adapter** (`BroadRecyclerAdapter`): an ordered list of item records, the
  last-item-refresh flag and the optional click listener. Each mutator (`add`,
  `add(index, …)`, `addToTop`, `addAll`, `setItems`, `clear`, `remove`) is a pure
  function from the old adapter to the new one. It appends to a log the notifications
  the adapter sends, in order. There are two kinds: the fine-grained `notifyItem…` /
  `notifyDataSetChanged` calls to the RecyclerView, and the coarse LiveData
  `notifyObserver`, written `ListChanged`. The reads (`getItemCount`, `getItem`,
  `getItems`, `getItemViewType`) and `onBindViewHolder` are pure functions of the list.
- **the item record** (`BaseItemViewModel`): records are objects compared by identity.
  A record is `Item(id, viewType)`. Its mutable fields (`position`, `clickListener`
  and the adapter back-reference) live in a map from record to `RecordState`, which
  bind updates. A listener is `NoListener | Base | LongClick`, and single and long
  clicks dispatch on it.
- **the recycling view's bookkeeping** (module `Notifications`): the independent
  yardstick for the notifications. The view remembers, per position, the record it
  shows or that the position is stale. Each notification moves that belief.
  `Agrees` says the belief matches the adapter's list: the same count, and every
  non-stale position shows the record now there. The main theorem,
  `AdapterRuns.RunInSync`, says that every run of calls keeps the view in agreement
  with the adapter unless it contains one of three calls on a non-empty list:
  - `setItems(…, notifyDataSet = false)`;
  - `addAll(getItems())`;
  - `setItems(getItems(), false)`.
  `AdapterRuns.StepInSync` proves that exactly these calls break agreement.
- **the spacing decoration** (`CustomSpaceDecorator.getItemOffsets`): a pure function
  from the configuration, the child's layout and adapter positions and the item
  count to the four offsets.

Files: `optional.dfy`, `item_view_model.dfy`, `notifications.dfy`,
`recycler_adapter.dfy`, `adapter_sync.dfy`, `adapter_runs.dfy`,
`adapter_findings.dfy`, `adapter_scenarios.dfy`, `space_decorator.dfy`.

The model follows the code, including where it departs from what an incremental list adapter might be expected to do:
- `add(index, item)` does not clamp the index; an out-of-range index throws in
  `ArrayList`, so it is a precondition.
- `clear()` notifies every time, even on an empty list.
- `setItems` with a null or empty argument does not clear the list. Otherwise it sends
  the inner `addAll`'s `RangeInserted(0, n)` and `ListChanged`, and adds a full
  refresh only when `notifyDataSet` is set.
- With last-item refresh, the `Changed` for the previous item comes before the
  insertion notice, not after it.
- A single insertion is announced with `notifyItemInserted`, not as a range of length one.
- There is no `removeAt` operation.

## Model

| member | source | states |
|---|---|---|
| ItemViewModel.OnItemClick | broadrecycleradapter/src/main/java/in/sarangal/broadrecycleradapter/itemviewmodel/BaseItemViewModel.kt:35-39 | a single click calls the record's listener exactly once, with the clicked view and the record itself, whatever the listener's capability; with no listener nothing is called; the record's fields are unchanged |
| ItemViewModel.OnItemClicks | broadrecycleradapter/src/main/java/in/sarangal/broadrecycleradapter/itemviewmodel/BaseItemViewModel.kt:46-52 | a long click calls the listener only when it is a long-click listener, once, with the view and the record; a missing or base-only listener gets no call; the record's fields are unchanged |
| ItemViewModel.NoCrossDispatch | broadrecycleradapter/src/main/java/in/sarangal/broadrecycleradapter/itemviewmodel/BaseItemViewModel.kt:35-52 | a single click never produces a long-click callback and a long click never produces a single-click callback |
| RecyclerAdapter.NewAdapter | broadrecycleradapter/src/main/java/in/sarangal/broadrecycleradapter/adapter/BroadRecyclerAdapter.kt:29-51 | a new adapter holds the given list and listener, has last-item refresh off and has sent no notification |
| RecyclerAdapter.SetLastItemUpdate | broadrecycleradapter/src/main/java/in/sarangal/broadrecycleradapter/adapter/BroadRecyclerAdapter.kt:62-69 | only the last-item-refresh flag changes; list, listener and notifications are untouched |
| RecyclerAdapter.ItemCount | broadrecycleradapter/src/main/java/in/sarangal/broadrecycleradapter/adapter/BroadRecyclerAdapter.kt:198 | the item count is the length of the list |
| RecyclerAdapter.GetItems | broadrecycleradapter/src/main/java/in/sarangal/broadrecycleradapter/adapter/BroadRecyclerAdapter.kt:230-232 | the returned list has the item count as its length and position by position is what `getItem` returns |
| RecyclerAdapter.GetItem | broadrecycleradapter/src/main/java/in/sarangal/broadrecycleradapter/adapter/BroadRecyclerAdapter.kt:237-246 | a position below the count yields the record there, any other non-negative position yields null; it never fails |
| RecyclerAdapter.GetItemViewType | broadrecycleradapter/src/main/java/in/sarangal/broadrecycleradapter/adapter/BroadRecyclerAdapter.kt:186-191 | below the count the view type of the record at that position, otherwise 0 |
| RecyclerAdapter.ViewTypeOfItem | broadrecycleradapter/src/main/java/in/sarangal/broadrecycleradapter/adapter/BroadRecyclerAdapter.kt:186-191 | the view type at a position is the view type of the record `getItem` returns there, and 0 exactly when it returns null |
| RecyclerAdapter.Bind | broadrecycleradapter/src/main/java/in/sarangal/broadrecycleradapter/adapter/BroadRecyclerAdapter.kt:116-125 | binding beyond the count changes nothing; otherwise exactly the record at that position is bound, gets the adapter's listener and the holder as back-reference, keeps its position field, and no other record changes |
| RecyclerAdapter.ClickAfterBindReachesAdapterListener | broadrecycleradapter/src/main/java/in/sarangal/broadrecycleradapter/adapter/BroadRecyclerAdapter.kt:147-151 | after a record is bound, a click on it reaches the adapter's listener with that record, or nothing when the adapter has no listener |
| RecyclerAdapter.NewRecordIgnoresClicks | broadrecycleradapter/src/main/java/in/sarangal/broadrecycleradapter/itemviewmodel/BaseItemViewModel.kt:23-28 | a new record has position 0 and no listener, so neither kind of click calls anything |
| RecyclerAdapter.LastItemRefresh | broadrecycleradapter/src/main/java/in/sarangal/broadrecycleradapter/adapter/BroadRecyclerAdapter.kt:266-268 | a refresh of the item before the insertion point is sent exactly when the flag is on and the insertion is not at position 0 |
| RecyclerAdapter.Add | broadrecycleradapter/src/main/java/in/sarangal/broadrecycleradapter/adapter/BroadRecyclerAdapter.kt:254-275 | a null item changes nothing and sends nothing; otherwise the item becomes the new last element with the old list before it, and the adapter sends the optional refresh of the old last item, then `Inserted(old count)`, then list-changed |
| RecyclerAdapter.AddAt | broadrecycleradapter/src/main/java/in/sarangal/broadrecycleradapter/adapter/BroadRecyclerAdapter.kt:284-303 | a null item is a no-op; otherwise the item lands at the index, the elements before it keep their positions and the rest shift by one, and the adapter sends the optional `Changed(index-1)`, then `Inserted(index)`, then list-changed |
| RecyclerAdapter.AddToTop | broadrecycleradapter/src/main/java/in/sarangal/broadrecycleradapter/adapter/BroadRecyclerAdapter.kt:311-325 | a null item is a no-op; otherwise the item is put in front and only `Inserted(0)` and list-changed are sent, never a refresh |
| RecyclerAdapter.AddToTopIsAddAtZero | broadrecycleradapter/src/main/java/in/sarangal/broadrecycleradapter/adapter/BroadRecyclerAdapter.kt:311-325 | `addToTop(item)` behaves exactly as `add(0, item)` in every state |
| RecyclerAdapter.AddAll | broadrecycleradapter/src/main/java/in/sarangal/broadrecycleradapter/adapter/BroadRecyclerAdapter.kt:335-356 | a null or empty argument is a no-op; otherwise the old list is kept as a prefix and the argument follows in order, with the optional refresh, one `RangeInserted(old count, n)` and list-changed |
| RecyclerAdapter.AddAllSendsOneRange | broadrecycleradapter/src/main/java/in/sarangal/broadrecycleradapter/adapter/BroadRecyclerAdapter.kt:347-354 | however long the appended list, at most three notifications are sent, exactly one of them a range insertion, and it covers the whole block |
| RecyclerAdapter.SetItems | broadrecycleradapter/src/main/java/in/sarangal/broadrecycleradapter/adapter/BroadRecyclerAdapter.kt:206-225 | a null or empty argument leaves the list as it was, without notifications; otherwise the list becomes the argument, with `RangeInserted(0, n)` and list-changed, then a full refresh and a second list-changed only when `notifyDataSet` |
| RecyclerAdapter.Clear | broadrecycleradapter/src/main/java/in/sarangal/broadrecycleradapter/adapter/BroadRecyclerAdapter.kt:361-372 | the list becomes empty and a full refresh plus list-changed are sent on every call |
| RecyclerAdapter.ClearTwice | broadrecycleradapter/src/main/java/in/sarangal/broadrecycleradapter/adapter/BroadRecyclerAdapter.kt:361-372 | clearing twice leaves the same contents as clearing once but sends the notifications twice |
| RecyclerAdapter.IndexOf | broadrecycleradapter/src/main/java/in/sarangal/broadrecycleradapter/adapter/BroadRecyclerAdapter.kt:381 | the result is -1 exactly when the element is absent, otherwise the first position holding it |
| RecyclerAdapter.Remove | broadrecycleradapter/src/main/java/in/sarangal/broadrecycleradapter/adapter/BroadRecyclerAdapter.kt:379-394 | an absent record changes nothing and sends nothing; otherwise its first occurrence is cut out and the rest keep their order, and the adapter sends `Removed(p)`, list-changed, and a refresh of the new last item when the flag is on and the list is not empty |
| RecyclerAdapter.RemoveTakesOneCopy | broadrecycleradapter/src/main/java/in/sarangal/broadrecycleradapter/adapter/BroadRecyclerAdapter.kt:379-394 | removal takes exactly one copy of the record out of the list's contents |
| AdapterSync.AddInSync | broadrecycleradapter/src/main/java/in/sarangal/broadrecycleradapter/adapter/BroadRecyclerAdapter.kt:254-275 | the notifications of `add` bring the view's belief in line with the new list |
| AdapterSync.AddAtInSync | broadrecycleradapter/src/main/java/in/sarangal/broadrecycleradapter/adapter/BroadRecyclerAdapter.kt:284-303 | the notifications of `add(index, …)` bring the view in line with the new list |
| AdapterSync.AddToTopInSync | broadrecycleradapter/src/main/java/in/sarangal/broadrecycleradapter/adapter/BroadRecyclerAdapter.kt:311-325 | the notifications of `addToTop` bring the view in line with the new list |
| AdapterSync.AddAllInSync | broadrecycleradapter/src/main/java/in/sarangal/broadrecycleradapter/adapter/BroadRecyclerAdapter.kt:335-356 | the single range notification of `addAll` brings the view in line with the new list |
| AdapterSync.SetItemsInSyncIff | broadrecycleradapter/src/main/java/in/sarangal/broadrecycleradapter/adapter/BroadRecyclerAdapter.kt:206-225 | `setItems` keeps the view in line exactly when it sends the full refresh or the list was empty before; otherwise the view still counts the silently cleared items |
| AdapterSync.ClearInSync | broadrecycleradapter/src/main/java/in/sarangal/broadrecycleradapter/adapter/BroadRecyclerAdapter.kt:361-372 | the full refresh of `clear` keeps the view in line |
| AdapterSync.RemoveInSync | broadrecycleradapter/src/main/java/in/sarangal/broadrecycleradapter/adapter/BroadRecyclerAdapter.kt:379-394 | the notifications of `remove` bring the view in line with the new list |
| AdapterRuns.StepInSync | broadrecycleradapter/src/main/java/in/sarangal/broadrecycleradapter/adapter/BroadRecyclerAdapter.kt:206-394 | a single public call keeps the view in line exactly when it is not one of the desyncing calls on a non-empty list: `setItems(xs, false)`, `addAll(getItems())`, `setItems(getItems(), false)` |
| AdapterRuns.RunInSync | broadrecycleradapter/src/main/java/in/sarangal/broadrecycleradapter/adapter/BroadRecyclerAdapter.kt:206-394 | over any run of calls, including calls that pass `getItems()` back in, that contains none of the desyncing calls, the notifications replayed over the view of the initial list leave it agreeing with the final list |
| AdapterRuns.RunCountsAgree | broadrecycleradapter/src/main/java/in/sarangal/broadrecycleradapter/adapter/BroadRecyclerAdapter.kt:198 | over such a run, as long as no full refresh was sent (no `clear`, no `setItems` with `notifyDataSet`), counting the insertions and removals announced gives the adapter's item count |
| AdapterFindings.AddAllOwnList | broadrecycleradapter/src/main/java/in/sarangal/broadrecycleradapter/adapter/BroadRecyclerAdapter.kt:335-356 | `addAll(getItems())` as written: the list doubles, and the adapter announces `RangeInserted(0, 2n)` |
| AdapterFindings.AddAllOwnListDesyncs | broadrecycleradapter/src/main/java/in/sarangal/broadrecycleradapter/adapter/BroadRecyclerAdapter.kt:345-351 | after `addAll(getItems())` on a non-empty list, the view believes in 3n items while the list has 2n |
| AdapterFindings.AddAllOwnListCorrected | broadrecycleradapter/src/main/java/in/sarangal/broadrecycleradapter/adapter/BroadRecyclerAdapter.kt:345-351 | appending a snapshot of the own list announces `RangeInserted(n, n)` and keeps the view in line |
| AdapterFindings.SetItemsOwnList | broadrecycleradapter/src/main/java/in/sarangal/broadrecycleradapter/adapter/BroadRecyclerAdapter.kt:206-225 | `setItems(getItems())` as written: a non-empty list ends up empty |
| AdapterFindings.SetItemsOwnListLosesItems | broadrecycleradapter/src/main/java/in/sarangal/broadrecycleradapter/adapter/BroadRecyclerAdapter.kt:210-216 | replacing a non-empty list by itself leaves an item count of 0 |
| AdapterFindings.SetItemsOwnListCorrected | broadrecycleradapter/src/main/java/in/sarangal/broadrecycleradapter/adapter/BroadRecyclerAdapter.kt:210-216 | replacing the list by a snapshot of itself keeps it, and with the refresh keeps the view in line |
| AdapterScenarios.AppendInsertRemoveClear | broadrecycleradapter/src/main/java/in/sarangal/broadrecycleradapter/adapter/BroadRecyclerAdapter.kt:254-372 | append A, append B, insert C at 0 gives [C, A, B]; removing A gives [C, B]; clearing gives count 0; the exact notifications sent |
| AdapterScenarios.LastItemRefreshOrder | broadrecycleradapter/src/main/java/in/sarangal/broadrecycleradapter/adapter/BroadRecyclerAdapter.kt:264-270 | with the flag on, appending to three items sends `Changed(2)` before `Inserted(3)`; appending to an empty list sends no `Changed` |
| AdapterScenarios.StaleBindIsIgnored | broadrecycleradapter/src/main/java/in/sarangal/broadrecycleradapter/adapter/BroadRecyclerAdapter.kt:116-120 | a bind at position 5 after a removal left three items changes nothing |
| AdapterScenarios.EmptyBulkAppendIsNoOp | broadrecycleradapter/src/main/java/in/sarangal/broadrecycleradapter/adapter/BroadRecyclerAdapter.kt:337 | `addAll` of an empty or null list is a complete no-op |
| AdapterScenarios.ClearOfEmptyStillNotifies | broadrecycleradapter/src/main/java/in/sarangal/broadrecycleradapter/adapter/BroadRecyclerAdapter.kt:361-372 | clearing an empty list still sends a full refresh and list-changed |
| AdapterScenarios.RemoveIsByIdentity | broadrecycleradapter/src/main/java/in/sarangal/broadrecycleradapter/adapter/BroadRecyclerAdapter.kt:379-383 | removal deletes the first occurrence of that instance and leaves equal-typed records |
| SpaceDecorator.MakeConfig | broadrecycleradapter/src/main/java/in/sarangal/broadrecycleradapter/decorator/CustomSpaceDecorator.kt:21-30 | the configuration carries the given arguments; omitted spacings default to `spacing`, orientation to vertical, both flags to true, bottom spacing to absent, span to 1 |
| SpaceDecorator.Half | broadrecycleradapter/src/main/java/in/sarangal/broadrecycleradapter/decorator/CustomSpaceDecorator.kt:71-72 | halving rounds toward zero and keeps the sign, as Kotlin's `Int` division does |
| SpaceDecorator.ItemOffsets | broadrecycleradapter/src/main/java/in/sarangal/broadrecycleradapter/decorator/CustomSpaceDecorator.kt:38-100 | a disabled side gets 0; left and right are 0, h or h/2; top is 0 or v and is non-zero only where the list starts (vertical and grid); a horizontal list's left is non-zero only for the first item; bottom is 0, v or the last-item spacing |
| SpaceDecorator.VerticalOffsets | broadrecycleradapter/src/main/java/in/sarangal/broadrecycleradapter/decorator/CustomSpaceDecorator.kt:59-66 | vertical: sides h when enabled, top v only for layout position 0 |
| SpaceDecorator.HorizontalOffsets | broadrecycleradapter/src/main/java/in/sarangal/broadrecycleradapter/decorator/CustomSpaceDecorator.kt:50-57 | horizontal: left h only for layout position 0, top v and right h when enabled |
| SpaceDecorator.GridOffsets | broadrecycleradapter/src/main/java/in/sarangal/broadrecycleradapter/decorator/CustomSpaceDecorator.kt:68-82 | vertical grid: each side h/2 when enabled, top v only for layout positions below the span |
| SpaceDecorator.BottomWithoutLastSpacing | broadrecycleradapter/src/main/java/in/sarangal/broadrecycleradapter/decorator/CustomSpaceDecorator.kt:89-90 | with no bottom spacing configured, every item's bottom is v when enabled |
| SpaceDecorator.BottomWithLastSpacing | broadrecycleradapter/src/main/java/in/sarangal/broadrecycleradapter/decorator/CustomSpaceDecorator.kt:91-98 | with a bottom spacing, only adapter position itemCount-1 of a non-empty list gets it; every other item gets v, both gated by the flag |
| SpaceDecorator.BothSidesDisabled | broadrecycleradapter/src/main/java/in/sarangal/broadrecycleradapter/decorator/CustomSpaceDecorator.kt:45-99 | with both flags off all four offsets are 0 |
| SpaceDecorator.OffsetsNonNegative | broadrecycleradapter/src/main/java/in/sarangal/broadrecycleradapter/decorator/CustomSpaceDecorator.kt:45-99 | non-negative spacings give non-negative offsets bounded by their spacing |
| SpaceDecorator.DefaultsAreUniformVertical | broadrecycleradapter/src/main/java/in/sarangal/broadrecycleradapter/decorator/CustomSpaceDecorator.kt:21-30 | with the defaults every side gets `spacing` and only the first item gets a top spacing |
| SpaceDecorator.GridGutter | broadrecycleradapter/src/main/java/in/sarangal/broadrecycleradapter/decorator/CustomSpaceDecorator.kt:71-72 | two neighbouring grid cells are separated by h rounded down to even |

## Left out

- View inflation (`onCreateViewHolder`), `DataBindingUtil.bind` and `setVariable`: these are Android calls. A view type is an opaque integer and a holder an opaque id.
- LiveData delivery: `notifyObserver` (broadrecycleradapter/src/main/java/in/sarangal/broadrecycleradapter/utils/Extensions.kt:12-14) posts asynchronously. It is modelled as a `ListChanged` entry in the log, without a payload and without coalescing. The adapter itself sets the LiveData value once at construction and never sets it to null, so the null-safe `value?.` branches of the adapter are not modelled.
- `isLastVisible` and the `onLongClick` binding adapter (broadrecycleradapter/src/main/java/in/sarangal/broadrecycleradapter/utils/Extensions.kt:19-45): thin wrappers over layout managers and view listeners.
- `setPaddingRelative` in grid mode (broadrecycleradapter/src/main/java/in/sarangal/broadrecycleradapter/decorator/CustomSpaceDecorator.kt:74-77): a side effect on the parent view, outside the offsets.
- `isNotEmpty` (broadrecycleradapter/src/main/java/in/sarangal/broadrecycleradapter/adapter/BroadRecyclerAdapter.kt:399): a value fixed at construction, not a live predicate. It is not modelled.
- The `adapterReferences` back-reference is declared in the Kotlin adapter but not in the shown record class. It is modelled as an optional holder id. `getViewHolder` and `getAdapterList` (broadrecycleradapter/src/main/java/in/sarangal/broadrecycleradapter/adapter/BroadRecyclerAdapter.kt:162-171) return foreign objects and are not modelled.
- The declaration of `ItemLongClickListener` is not among this model's sources. The sample passes one where a `BaseItemClickListener?` is expected (app/src/main/java/in/sarangal/broadrecycleradaptersample/activity/MainActivity.kt:164-165), so it extends the base interface. It is modelled as the `LongClick` listener, which also receives single clicks.
- Outside writes to the backing list are not modelled. `getMutableLiveDataList()` (broadrecycleradapter/src/main/java/in/sarangal/broadrecycleradapter/adapter/BroadRecyclerAdapter.kt:56) hands out the `MutableLiveData` itself, so a caller may set its value to null or to another list. After a null, `getItemCount` is 0 and every mutator does nothing. After another list, the adapter works on that list without having sent any notification. The constructor also keeps the caller's `ArrayList` as the backing list (broadrecycleradapter/src/main/java/in/sarangal/broadrecycleradapter/adapter/BroadRecyclerAdapter.kt:30, :50), and the caller may change it without any notification. The model's list changes only through the adapter's own calls. The one aliasing it does cover is `getItems()` passed back to `addAll` or `setItems`.
- Overrides: `onItemClick` and `onItemClicks` are `open`, and subclasses may override them. Only the base behaviour is modelled.
- 32-bit integers: positions, counts and spacings are unbounded. Lists near 2^31 elements are not modelled.
- Negative positions passed to `getItem`, `getItemViewType` or `onBindViewHolder` throw in `ArrayList`, so those positions are naturals. An out-of-range `add(index, …)` is a precondition rather than an error outcome.
- The sample app (activities, view models, item kinds) is UI wiring and is not modelled.
- A `notifyItemChanged` out of range is modelled as breaking the view's bookkeeping. RecyclerView may tolerate it, but the adapter never sends one.

## Findings

| source | as written | input that shows it | evidently intended | confidence | as-written member | corrected member |
|---|---|---|---|---|---|---|
| broadrecycleradapter/src/main/java/in/sarangal/broadrecycleradapter/adapter/BroadRecyclerAdapter.kt:345-351 | `newItemPosition = it.size - items.size` is read after `addAll`, and `items` may be the backing list itself | `adapter.addAll(adapter.getItems())` on a list of n > 0 items sends `RangeInserted(0, 2n)`, so the view counts 3n items while there are 2n | take the start and length before appending: `RangeInserted(n, n)` | medium, not executed | AdapterFindings.AddAllOwnListDesyncs | AdapterFindings.AddAllOwnListCorrected |
| broadrecycleradapter/src/main/java/in/sarangal/broadrecycleradapter/adapter/BroadRecyclerAdapter.kt:210-216 | `clear()` on the backing list runs before `addAll(itemsList)`, and `itemsList` may be that same list | `adapter.setItems(adapter.getItems())` on a non-empty list leaves it empty | copy the argument before clearing, so that the list equals the argument afterwards | medium, not executed | AdapterFindings.SetItemsOwnListLosesItems | AdapterFindings.SetItemsOwnListCorrected |
