# Song list reconciliation, modelled in Dafny

The app polls a remote service for a list of songs. Each song has an author, a name, a
64-bit id and a version. The app keeps a local copy in two places:

- **The persisted song table.** `SongsHelper.updateSongsInDb` sorts the fetched list by
  id in place. It then walks it against the stored songs, which are read back sorted by
  id, using two cursors. This builds an ordered batch of insert, update and delete
  operations, which it hands to the content resolver. A failure to apply the batch is
  rethrown.
- **The song grid's list adapter.** `SongsAdapter.updateItems` runs the same kind of
  merge in place on the list the grid shows. After every single insertion, removal or
  replacement it tells the view which position changed.

A third, small piece is `LogUtils.makeLogTag`, which cuts a log tag down to the 23
characters Android accepts.

Files:

- `songs.dfy` (module `Songs`): the song value, the 64-bit range and the by-id orderings.
- `songs_helper.dfy` (module `SongsHelper`): the store reconciler.
  - The sort is an in-place method on an `array`.
  - The batch construction is a method with the source's loops and cursors. It is proved
    equal to the function `Batch`.
  - The table is a map from song id to row, and `ApplyBatch` applies the operations in
    order.
- `songs_adapter.dfy` (module `Adapter`): the view reconciler.
  - The adapter is the class `SongsAdapter`, whose `items` field the methods update in
    place.
  - The view's callbacks are a ghost log of notifications.
  - The class invariant `Valid()` states that a view which followed every notification
    from the empty list shows exactly `items`.
- `log_utils.dfy` (module `LogUtils`): the tag helper.

Where the code and its comments disagree, the model follows the code:

- **The insert branch of the store merge advances both cursors**
  (`SongsHelper.java:180-181`). The stored song under the old cursor is therefore never
  examined again. Because of this, the doc comment's promise that the table ends up
  holding the new list (`SongsHelper.java:92-102`) is guaranteed under a side condition,
  `AppendOnly`: every new id that is not stored is above every stored id. The condition
  is sufficient, not necessary, when the operation builder accepts the selection the
  insert branch attaches: stored [2] and new [1, 2] with the same song 2 then still end
  with the new list's table, because the re-insert of 2 is refused and changes nothing
  (`AppendOnlyNotNecessary`). When the builder refuses that selection, the condition is
  also necessary: every batch that breaks it fails before the table is touched.
  - `BatchConverges` proves the promise under that condition.
  - `InsertBranchFiresIffNotAppendOnly` shows the condition is exactly what keeps the
    insert branch from firing: for strictly sorted lists, the branch fires if and only
    if `AppendOnly` fails.
  - `StaleSongSurvives` and `ChangedSongNotUpdated` give two concrete inputs where the
    promise fails.
- **The "no new songs, clear the table" branch (`SongsHelper.java:134-139`) never
  runs.** It tests the stored list a second time instead of the new list. It is kept as
  the dead `ClearTable` case of `Batch`. For an empty new list, the tail-delete loop
  does the work instead (`BatchForEmptyList`).
- **The adapter's comparator subtracts the two `long` ids.** The subtraction wraps
  around (`SongsAdapter.java:60-62`).
  - `CompareBySubtraction` models the wrap-around explicitly.
  - For 64-bit ids it still detects equal ids exactly. When the difference overflows,
    the order always comes out reversed (`CompareBySubtractionOverflowReverses`).
  - The adapter's result is therefore proved in two strengths. The new list always ends
    as a prefix of the shown list. Under `MergeSafe` the shown list equals the new list.
    `MergeSafe` means both lists are strictly ascending by id and no id difference
    overflows.

## Model

| member | source | states |
|---|---|---|
| LogUtils.MakeLogTag | app/src/main/java/com/caco3/testtask/util/LogUtils.java:8-18 | counting UTF-16 code units as Java does, the tag has at most 23 of them and is a prefix of the input; it is the input itself when that fits, and exactly its first 23 code units otherwise |
| LogUtils.MakeLogTagIdempotent | app/src/main/java/com/caco3/testtask/util/LogUtils.java:12-18 | making a tag from a tag returns it unchanged |
| LogUtils.MakeLogTagSplitsSurrogatePair | app/src/main/java/com/caco3/testtask/util/LogUtils.java:13-14 | a name of 23 characters outside the Basic Multilingual Plane is 46 code units; its tag ends on the first half of a surrogate pair |
| SongsHelper.RowOf | app/src/main/java/com/caco3/testtask/songs/SongsHelper.java:227-235 | the row is a field-by-field copy: reading it back gives the song, and its song-id column is the song's id |
| SongsHelper.CompareById | app/src/main/java/com/caco3/testtask/songs/SongsHelper.java:33-49 | the result is -1, 0 or 1, negative exactly when the first id is smaller, zero exactly when the ids are equal, positive exactly when it is larger |
| SongsHelper.CompareByIdIsTotalOrder | app/src/main/java/com/caco3/testtask/songs/SongsHelper.java:36-48 | swapping the arguments negates the result; "at most" and "equal" are transitive |
| SongsHelper.SwapAdjacent | app/src/main/java/com/caco3/testtask/songs/SongsHelper.java:119 | exchanges two neighbouring entries of the array and keeps its multiset of songs |
| SongsHelper.SinkInto | app/src/main/java/com/caco3/testtask/songs/SongsHelper.java:119 | given a prefix sorted by id, extends the sorted prefix by one entry, keeps the multiset of songs and leaves every entry after it untouched |
| SongsHelper.SortById | app/src/main/java/com/caco3/testtask/songs/SongsHelper.java:119 | the caller's array ends ascending by id and is a permutation of what it held |
| SongsHelper.InsertAll | app/src/main/java/com/caco3/testtask/songs/SongsHelper.java:185-195 | one operation per remaining new song, each a plain insert without a selection |
| SongsHelper.DeleteFrom | app/src/main/java/com/caco3/testtask/songs/SongsHelper.java:196-208 | one operation per remaining stored song, each a delete |
| SongsHelper.MergeFrom | app/src/main/java/com/caco3/testtask/songs/SongsHelper.java:141-209 | the merge from a cursor pair emits at most one operation per song left in either list, and never clears the table |
| SongsHelper.Batch | app/src/main/java/com/caco3/testtask/songs/SongsHelper.java:110-210 | the batch has at most one operation per stored or new song and never clears the table, since the "no new songs" branch is dead |
| SongsHelper.StoreOfKeys | app/src/main/java/com/caco3/testtask/provider/SongsDatabase.java:35-41 | the table holding a list has exactly the list's ids as keys, one row per song id as the UNIQUE column allows |
| SongsHelper.StoreOfAt | app/src/main/java/com/caco3/testtask/provider/SongsDatabase.java:35-41 | in the table of a strictly sorted list, each song's id selects that song's row |
| SongsHelper.ApplyOp | app/src/main/java/com/caco3/testtask/songs/SongsHelper.java:211-214 | an insert adds its song id and no other, keeps every existing row, and the added row is the inserted one when the id was new; an update of a present id writes the new row under its id and keeps every other row, of an absent id changes nothing; a delete removes the id, keeps every other row and adds none; clearing empties the table |
| SongsHelper.MergeFromStep | app/src/main/java/com/caco3/testtask/songs/SongsHelper.java:144-182 | one merge pass: a smaller stored id gives a delete of it and moves the stored cursor; equal ids give an update only when the songs differ and move both cursors; a smaller new id gives an insert with a selection and moves both cursors |
| SongsHelper.MergeFromTail | app/src/main/java/com/caco3/testtask/songs/SongsHelper.java:185-209 | once a cursor runs off its list, what remains is the tail-insert loop's inserts or the tail-delete loop's deletes |
| SongsHelper.InsertTail | app/src/main/java/com/caco3/testtask/songs/SongsHelper.java:185-195 | the loop emits one plain insert per remaining new song, in order |
| SongsHelper.DeleteTail | app/src/main/java/com/caco3/testtask/songs/SongsHelper.java:196-208 | the loop emits one delete by id per remaining stored song, in order |
| SongsHelper.MergePass | app/src/main/java/com/caco3/testtask/songs/SongsHelper.java:144-182 | one pass's operations followed by the merge from the new cursors is the merge from the old cursors, and the stored cursor always moves |
| SongsHelper.BuildBatch | app/src/main/java/com/caco3/testtask/songs/SongsHelper.java:110-210 | the batch the cursors and loops build is exactly `Batch(stored, songs)` |
| SongsHelper.UpdateSongsInDb | app/src/main/java/com/caco3/testtask/songs/SongsHelper.java:103-220 | the caller's list ends sorted by id as a permutation of itself; the batch is `Batch` of the stored and sorted lists; if the builder refuses a selection on an insert and the batch has such an insert, the call fails before the table is touched; otherwise a rejected batch ends in failure, and an accepted one in the table the batch produces; when the batch is accepted, both lists are strictly sorted and AppendOnly holds, the outcome is the new list's table whatever the builder does with selections; with a builder that refuses them, strictly sorted lists and an accepted batch, the outcome is the new list's table exactly when AppendOnly holds |
| SongsHelper.BatchForEmptyStore | app/src/main/java/com/caco3/testtask/songs/SongsHelper.java:125-133 | nothing stored: exactly one plain insert per new song, in order, and nothing else |
| SongsHelper.BatchForEmptyList | app/src/main/java/com/caco3/testtask/songs/SongsHelper.java:196-208 | songs stored and an empty new list: exactly one delete by id per stored song, in stored order, and never the table-clearing delete |
| SongsHelper.BatchOfSameList | app/src/main/java/com/caco3/testtask/songs/SongsHelper.java:154-169 | reconciling a list with itself emits no operation |
| SongsHelper.MergeJustified | app/src/main/java/com/caco3/testtask/songs/SongsHelper.java:141-209 | from any reachable cursor pair, every operation emitted is justified by the two lists |
| SongsHelper.BatchJustified | app/src/main/java/com/caco3/testtask/songs/SongsHelper.java:145-208 | every insert carries a new song's row; every update selects an id present in both lists with different contents and carries the new row; every delete selects a stored id that the new list does not have; the table is never cleared |
| SongsHelper.DeleteStepStore | app/src/main/java/com/caco3/testtask/songs/SongsHelper.java:145-153 | the main-loop delete removes exactly the stale stored row under the cursor |
| SongsHelper.MatchStepStore | app/src/main/java/com/caco3/testtask/songs/SongsHelper.java:154-169 | after the main-loop match, the row of that id holds the new song's values, whether or not an update was needed |
| SongsHelper.InsertAllConverges | app/src/main/java/com/caco3/testtask/songs/SongsHelper.java:185-195 | the tail inserts complete the table to the whole new list |
| SongsHelper.DeleteFromConverges | app/src/main/java/com/caco3/testtask/songs/SongsHelper.java:196-208 | the tail deletes remove exactly the stored rows left after the cursor |
| SongsHelper.MergeConverges | app/src/main/java/com/caco3/testtask/songs/SongsHelper.java:141-209 | under AppendOnly, from any cursor pair the merge can reach, the rest of the batch turns the table into the new list's |
| SongsHelper.BatchConverges | app/src/main/java/com/caco3/testtask/songs/SongsHelper.java:92-102 | the doc comment's promise under its side condition: for strictly sorted lists with AppendOnly, applying the batch to the stored table gives exactly the new list's table |
| SongsHelper.InsertBranchReached | app/src/main/java/com/caco3/testtask/songs/SongsHelper.java:170-182 | a new id that is not stored and lies below a stored id makes the merge emit an insert with a selection |
| SongsHelper.InsertBranchAvoided | app/src/main/java/com/caco3/testtask/songs/SongsHelper.java:170-182 | under AppendOnly the merge emits no insert with a selection |
| SongsHelper.InsertBranchFiresIffNotAppendOnly | app/src/main/java/com/caco3/testtask/songs/SongsHelper.java:170-182 | for strictly sorted lists, the main loop's insert branch fires exactly when AppendOnly fails |
| SongsHelper.StaleSongSurvives | app/src/main/java/com/caco3/testtask/songs/SongsHelper.java:170-183 | stored [2, 3] and new [1, 3]: the batch is the single insert of 1, with a selection; id 2 is in the stored table and stays there after the batch, although the new list lacks it; if the builder refuses the selection the table is not touched at all, so id 2 stays either way |
| SongsHelper.ChangedSongNotUpdated | app/src/main/java/com/caco3/testtask/songs/SongsHelper.java:170-195 | stored [2 v1] and new [1, 2 v2]: the batch inserts 1 with a selection and then 2 a second time; the stored table holds version 1 of song 2 and still does after the batch; if the builder refuses the selection the table is not touched, so version 1 stays either way |
| SongsHelper.AppendOnlyNotNecessary | app/src/main/java/com/caco3/testtask/songs/SongsHelper.java:170-195 | stored [2] and new [1, 2] with song 2 unchanged: AppendOnly fails, yet the batch turns the stored table into exactly the new list's table |
| Adapter.WrapLong | app/src/main/java/com/caco3/testtask/songs/SongsAdapter.java:60-62 | the result is a 64-bit value congruent to the input modulo 2^64, and the input itself when that is already 64-bit |
| Adapter.CompareBySubtraction | app/src/main/java/com/caco3/testtask/songs/SongsAdapter.java:52-68 | the result is -1, 0 or 1; when the id difference fits in 64 bits, its sign is the ids' order |
| Adapter.CompareBySubtractionOverflowReverses | app/src/main/java/com/caco3/testtask/songs/SongsAdapter.java:60-66 | for 64-bit ids whose difference overflows, the comparator answers the reverse of the ids' order: -1 when the first id is larger, 1 when it is smaller |
| Adapter.CompareBySubtractionEqual | app/src/main/java/com/caco3/testtask/songs/SongsAdapter.java:60-66 | for 64-bit ids the comparator answers 0 exactly when the ids are equal, overflow or not |
| Adapter.CompareBySubtractionReflexive | app/src/main/java/com/caco3/testtask/songs/SongsAdapter.java:60-66 | every song compares equal to itself |
| Adapter.CompareBySubtractionOverflows | app/src/main/java/com/caco3/testtask/songs/SongsAdapter.java:60-62 | the largest id against id -1: the larger id compares as smaller |
| Adapter.ReplayConcat | app/src/main/java/com/caco3/testtask/songs/SongsAdapter.java:105-176 | following two logs one after the other is following their concatenation |
| Adapter.ReplayedPositionsValid | app/src/main/java/com/caco3/testtask/songs/SongsAdapter.java:129-171 | in a log a view can follow, every notification's position was valid for the list just before it: an insertion at most the size, a removal or change below it |
| Adapter.MergedBelowRestStep | app/src/main/java/com/caco3/testtask/songs/SongsAdapter.java:129-153 | under MergeSafe each merge pass keeps the last merged id below the old list's next id |
| Adapter.IdenticalListsStep | app/src/main/java/com/caco3/testtask/songs/SongsAdapter.java:135-144 | merging a list into itself moves both cursors together and sends nothing |
| Adapter.TrailingComparison | app/src/main/java/com/caco3/testtask/songs/SongsAdapter.java:167 | the tail loop's test is 0 once only the new list is shown, and positive while old songs remain after it under MergeSafe |
| Adapter.SongsAdapter.constructor | app/src/main/java/com/caco3/testtask/songs/SongsAdapter.java:70-72 | a fresh adapter shows nothing, has sent nothing and is valid |
| Adapter.SongsAdapter.ItemCount | app/src/main/java/com/caco3/testtask/songs/SongsAdapter.java:96-99 | for a valid adapter, a view that followed every notification from the empty list holds exactly as many songs as the count |
| Adapter.SongsAdapter.AppendItem | app/src/main/java/com/caco3/testtask/songs/SongsAdapter.java:160-161 | appends the song, notifies an insertion at its new position, and keeps the view in step |
| Adapter.SongsAdapter.InsertItem | app/src/main/java/com/caco3/testtask/songs/SongsAdapter.java:148-149 | inserts the song at a position no larger than the size, notifies an insertion there, and keeps the view in step |
| Adapter.SongsAdapter.RemoveItem | app/src/main/java/com/caco3/testtask/songs/SongsAdapter.java:133-134 | removes the song at a position below the size, notifies a removal there, and keeps the view in step |
| Adapter.SongsAdapter.ChangeItem | app/src/main/java/com/caco3/testtask/songs/SongsAdapter.java:139-140 | replaces the song at a position below the size, notifies a change there, and keeps the view in step |
| Adapter.SongsAdapter.UpdateItems | app/src/main/java/com/caco3/testtask/songs/SongsAdapter.java:105-176 | the notifications sent take a view of the old list to the shown list; the new list is always a prefix of the shown list, and equal to it under MergeSafe; an empty adapter sends Inserted(0) … Inserted(n-1); an empty new list sends Removed(size-1) … Removed(0); an identical list sends nothing and changes nothing; an empty adapter ends showing exactly the new list, and an empty new list leaves nothing shown |
| Adapter.SongsAdapter.AddAll | app/src/main/java/com/caco3/testtask/songs/SongsAdapter.java:106-111 | the shown list becomes the new list, with Inserted(k) for each position k in order |
| Adapter.SongsAdapter.RemoveAll | app/src/main/java/com/caco3/testtask/songs/SongsAdapter.java:112-117 | the shown list becomes empty, with removals from the last position down to 0 |
| Adapter.SongsAdapter.MergeLists | app/src/main/java/com/caco3/testtask/songs/SongsAdapter.java:118-174 | both lists non-empty: the new list ends as a prefix of the shown list and equal to it under MergeSafe; an identical list sends nothing |
| Adapter.SongsAdapter.MergeHead | app/src/main/java/com/caco3/testtask/songs/SongsAdapter.java:126-154 | after the merge loop, the two cursors are equal; the shown list is the merged part of the new list followed by an untouched suffix of the old list; one of the lists is used up |
| Adapter.SongsAdapter.MergeStep | app/src/main/java/com/caco3/testtask/songs/SongsAdapter.java:129-153 | one pass removes, refreshes or inserts as the comparison says, moves the cursors accordingly and sends at most one notification |
| Adapter.SongsAdapter.RemoveStale | app/src/main/java/com/caco3/testtask/songs/SongsAdapter.java:130-134 | the shown song at the cursor is dropped with one Removed at the cursor |
| Adapter.SongsAdapter.Refresh | app/src/main/java/com/caco3/testtask/songs/SongsAdapter.java:135-144 | same id: the new song takes the position; one Changed when the songs differ, nothing when they are equal |
| Adapter.SongsAdapter.InsertMissing | app/src/main/java/com/caco3/testtask/songs/SongsAdapter.java:145-153 | the new song is inserted at the cursor with one Inserted there, and the old list's cursor stays |
| Adapter.SongsAdapter.AppendRest | app/src/main/java/com/caco3/testtask/songs/SongsAdapter.java:156-162 | the remaining new songs are appended in order, and the shown list becomes the new list; one Inserted per appended song, at position start + k for the k-th, carrying that song |
| Adapter.SongsAdapter.RemoveTrailing | app/src/main/java/com/caco3/testtask/songs/SongsAdapter.java:163-171 | the loop stays in range and terminates; the new list remains a prefix; one Removed per dropped song, the k-th at position size - 1 - k, so always the last shown position; under MergeSafe every leftover old song is removed, and the shown list becomes the new list |

## Left out

- Reading the stored songs (`getSongs`, the database cursor loop) is I/O. The stored list is an input. Results that need it sorted take it strictly sorted by id, matching the query's ascending order.
- The content resolver's `applyBatch` is not modelled; the table is a map from song id to row.
  - Whether it throws is a boolean parameter of `SongsHelper.UpdateSongsInDb`.
  - Atomicity is not modelled: no transaction is visible in the code.
  - An insert whose id is already stored leaves the table unchanged, as the UNIQUE song-id column refuses it.
  - The main loop attaches a selection to its insert. Whether the operation builder refuses a selection on an insert is the boolean parameter `selectionOnInsertRejected` of `SongsHelper.UpdateSongsInDb`. If it is refused, the call fails while the batch is built, before the table is touched. If it is accepted, it has no effect on the insert.
- `SongsHelper.SortById` is an insertion sort. It states only what `Collections.sort` promises that the merge relies on: sorted by id and a permutation. Stability is not stated.
- `Adapter.SongsAdapter.UpdateItems` does not prove that the shown list equals the new list when the lists are merely strictly sorted. The subtraction comparator can overflow, so the model also requires that no id difference overflows (`MergeSafe`). Without `MergeSafe` it proves only that the new list is a prefix of the shown list.
- The view's callbacks are a ghost log, not RecyclerView calls. An insertion or change notification also records the song, so that the log can be replayed. The real callbacks carry only the position.
- `updateItems` is split into helper methods, one per case and one per loop. The list is a `seq` field that the methods reassign.
- Song ids are unbounded integers. They are limited to 64 bits only where the adapter's subtraction comparator needs it.
- `LogUtils.MakeLogTag` counts UTF-16 code units, as Java does. It does not model the characters they encode; `MakeLogTagSplitsSurrogatePair` shows that the cut can leave half a surrogate pair.
- The `makeLogTag(Class)` overload and the `LOGE`/`LOGD`/`LOGI`/`LOGW`/`LOGV` methods are left out. They call into reflection and `android.util.Log`.
- The view holder, the colour choice in `onBindViewHolder`, the provider, the database schema, the HTTP client and JSON parsing, the polling service and the activity are not part of this model. They are Android and network glue.
