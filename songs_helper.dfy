/**
 * The store reconciler: bring the persisted song table in line with a song list
 * fetched from the remote service.
 *
 * The remote list is sorted by id in place, then merged with the stored list
 * (already sorted by id) by two cursors, producing an ordered batch of
 * insert / update / delete operations that is handed to the content resolver.
 * The persisted table is modelled as a map from song id to the row's columns.
 */
module SongsHelper {
  import opened Songs

  /** The column values written for one song: author, name, version and song id. */
  datatype Row = Row(author: string, name: string, version: int, songId: int)

  /** contentValuesFromSong: a field-by-field copy of the song into a row. */
  function RowOf(s: Song): (r: Row)
    ensures SongOf(r) == s
    ensures r.songId == s.id
  {
    Row(s.author, s.name, s.version, s.id)
  }

  /** The song a stored row reads back as. */
  function SongOf(r: Row): Song {
    Song(r.author, r.name, r.songId, r.version)
  }

  /** sSongByIdComparator: -1, 0 or 1 as the first id is below, equal to or above the second. */
  function CompareById(a: Song, b: Song): (r: int)
    ensures r == -1 || r == 0 || r == 1
    ensures r < 0 <==> a.id < b.id
    ensures r == 0 <==> a.id == b.id
    ensures r > 0 <==> a.id > b.id
  {
    if a.id < b.id then -1 else if a.id > b.id then 1 else 0
  }

  /** The comparator is a total preorder on songs: antisymmetric in sign and transitive. */
  lemma CompareByIdIsTotalOrder(a: Song, b: Song, c: Song)
    ensures CompareById(a, b) == -CompareById(b, a)
    ensures CompareById(a, b) <= 0 && CompareById(b, c) <= 0 ==> CompareById(a, c) <= 0
    ensures CompareById(a, b) == 0 && CompareById(b, c) == 0 ==> CompareById(a, c) == 0
  {
  }

  // ---------------------------------------------------------------------------
  // Sorting the remote list (Collections.sort with the comparator above)
  // ---------------------------------------------------------------------------

  /** Exchanges two neighbouring entries of the list. */
  method SwapAdjacent(a: array<Song>, j: int)
    requires 0 < j < a.Length
    modifies a
    ensures a[..] == old(a[..])[j - 1 := old(a[j])][j := old(a[j - 1])]
    ensures multiset(a[..]) == multiset(old(a[..]))
  {
    a[j - 1], a[j] := a[j], a[j - 1];
  }

  /**
   * One pass of the insertion sort: the entry at `i` sinks past every larger entry of
   * the sorted prefix before it, so the prefix through `i` is sorted afterwards.
   */
  method SinkInto(a: array<Song>, i: int)
    requires 0 <= i < a.Length
    requires forall p, q :: 0 <= p < q < i ==> a[p].id <= a[q].id
    modifies a
    ensures forall p, q :: 0 <= p < q <= i ==> a[p].id <= a[q].id
    ensures multiset(a[..]) == multiset(old(a[..]))
    ensures a[i + 1..] == old(a[i + 1..])
  {
    var j := i;
    while 0 < j && CompareById(a[j - 1], a[j]) > 0
      invariant 0 <= j <= i
      invariant multiset(a[..]) == multiset(old(a[..]))
      invariant a[i + 1..] == old(a[i + 1..])
      invariant forall p, q :: 0 <= p < q <= i && p != j && q != j ==> a[p].id <= a[q].id
      invariant forall q :: j < q <= i ==> a[j].id < a[q].id
    {
      SwapAdjacent(a, j);
      j := j - 1;
    }
  }

  /** Sorts the caller's list in place, ascending by id; the result is a permutation of the input. */
  method SortById(a: array<Song>)
    modifies a
    ensures SortedById(a[..])
    ensures multiset(a[..]) == multiset(old(a[..]))
  {
    var i := 0;
    while i < a.Length
      invariant 0 <= i <= a.Length
      invariant forall p, q :: 0 <= p < q < i ==> a[p].id <= a[q].id
      invariant multiset(a[..]) == multiset(old(a[..]))
    {
      SinkInto(a, i);
      i := i + 1;
    }
  }

  // ---------------------------------------------------------------------------
  // Batch operations and the batch the reconciler builds
  // ---------------------------------------------------------------------------

  /**
   * One content-provider operation. An insert may carry a selection on the song id
   * (the main merge loop attaches one); an update and a delete select the row by song id;
   * ClearTable is the unconditional delete of the never-taken "no new songs" branch.
   */
  datatype Op =
    | Insert(values: Row, selection: Option<int>)
    | Update(songId: int, values: Row)
    | Delete(songId: int)
    | ClearTable

  /** One plain insert per song of `songs[j..]`, in order (the tail-insert loop). */
  function InsertAll(songs: seq<Song>, j: nat): (ops: seq<Op>)
    requires j <= |songs|
    ensures |ops| == |songs| - j
    ensures forall k :: 0 <= k < |ops| ==> ops[k].Insert? && ops[k].selection == None
    decreases |songs| - j
  {
    if j == |songs| then [] else [Insert(RowOf(songs[j]), None)] + InsertAll(songs, j + 1)
  }

  /** One delete by id per stored song of `stored[i..]`, in order (the tail-delete loop). */
  function DeleteFrom(stored: seq<Song>, i: nat): (ops: seq<Op>)
    requires i <= |stored|
    ensures |ops| == |stored| - i
    ensures forall k :: 0 <= k < |ops| ==> ops[k].Delete?
    decreases |stored| - i
  {
    if i == |stored| then [] else [Delete(stored[i].id)] + DeleteFrom(stored, i + 1)
  }

  /**
   * The operations the two-cursor merge emits from stored cursor `i` and new cursor `j` on.
   * When the new song's id is below the stored one, the insert branch advances BOTH cursors,
   * so the stored song under the cursor is never examined.
   */
  function MergeFrom(stored: seq<Song>, songs: seq<Song>, i: nat, j: nat): (ops: seq<Op>)
    requires i <= |stored| && j <= |songs|
    ensures |ops| <= |stored| - i + |songs| - j
    ensures forall k :: 0 <= k < |ops| ==> !ops[k].ClearTable?
    decreases |stored| - i + |songs| - j
  {
    if i < |stored| && j < |songs| then
      var c := CompareById(stored[i], songs[j]);
      if c < 0 then
        [Delete(stored[i].id)] + MergeFrom(stored, songs, i + 1, j)
      else if c == 0 then
        (if stored[i] != songs[j] then [Update(stored[i].id, RowOf(songs[j]))] else [])
        + MergeFrom(stored, songs, i + 1, j + 1)
      else
        [Insert(RowOf(songs[j]), Some(songs[j].id))] + MergeFrom(stored, songs, i + 1, j + 1)
    else if j < |songs| then
      InsertAll(songs, j)
    else
      DeleteFrom(stored, i)
  }

  /** The batch built for the stored list `stored` and the (sorted) new list `songs`. */
  function Batch(stored: seq<Song>, songs: seq<Song>): (ops: seq<Op>)
    ensures |ops| <= |stored| + |songs|
    ensures forall k :: 0 <= k < |ops| ==> !ops[k].ClearTable?
  {
    if stored == [] then InsertAll(songs, 0)
    else if stored == [] then [ClearTable]
    else MergeFrom(stored, songs, 0, 0)
  }

  lemma InsertAllStep(songs: seq<Song>, j: nat)
    requires j < |songs|
    ensures InsertAll(songs, j) == [Insert(RowOf(songs[j]), None)] + InsertAll(songs, j + 1)
  {
  }

  lemma DeleteFromStep(stored: seq<Song>, i: nat)
    requires i < |stored|
    ensures DeleteFrom(stored, i) == [Delete(stored[i].id)] + DeleteFrom(stored, i + 1)
  {
  }

  /** One step of the main merge loop. */
  lemma MergeFromStep(stored: seq<Song>, songs: seq<Song>, i: nat, j: nat)
    requires i < |stored| && j < |songs|
    ensures stored[i].id < songs[j].id ==>
      MergeFrom(stored, songs, i, j) == [Delete(stored[i].id)] + MergeFrom(stored, songs, i + 1, j)
    ensures stored[i].id == songs[j].id && stored[i] != songs[j] ==>
      MergeFrom(stored, songs, i, j) == [Update(stored[i].id, RowOf(songs[j]))] + MergeFrom(stored, songs, i + 1, j + 1)
    ensures stored[i] == songs[j] ==>
      MergeFrom(stored, songs, i, j) == MergeFrom(stored, songs, i + 1, j + 1)
    ensures stored[i].id > songs[j].id ==>
      MergeFrom(stored, songs, i, j) == [Insert(RowOf(songs[j]), Some(songs[j].id))] + MergeFrom(stored, songs, i + 1, j + 1)
  {
  }

  /** Once one cursor has run off its list, the merge is one of the two tail loops. */
  lemma MergeFromTail(stored: seq<Song>, songs: seq<Song>, i: nat, j: nat)
    requires i <= |stored| && j <= |songs| && !(i < |stored| && j < |songs|)
    ensures MergeFrom(stored, songs, i, j) == if j < |songs| then InsertAll(songs, j) else DeleteFrom(stored, i)
    ensures j == |songs| && i == |stored| ==> MergeFrom(stored, songs, i, j) == []
  {
  }

  /** The tail-insert loop: one plain insert per song from `j` on. */
  method InsertTail(songs: seq<Song>, j: nat) returns (ops: seq<Op>)
    requires j <= |songs|
    ensures ops == InsertAll(songs, j)
  {
    ops := [];
    var k := j;
    while k < |songs|
      invariant j <= k <= |songs|
      invariant ops + InsertAll(songs, k) == InsertAll(songs, j)
    {
      InsertAllStep(songs, k);
      assert ops + [Insert(RowOf(songs[k]), None)] + InsertAll(songs, k + 1) == ops + ([Insert(RowOf(songs[k]), None)] + InsertAll(songs, k + 1));
      ops := ops + [Insert(RowOf(songs[k]), None)];
      k := k + 1;
    }
  }

  /** The tail-delete loop: one delete by id per stored song from `i` on. */
  method DeleteTail(stored: seq<Song>, i: nat) returns (ops: seq<Op>)
    requires i <= |stored|
    ensures ops == DeleteFrom(stored, i)
  {
    ops := [];
    var k := i;
    while k < |stored|
      invariant i <= k <= |stored|
      invariant ops + DeleteFrom(stored, k) == DeleteFrom(stored, i)
    {
      DeleteFromStep(stored, k);
      assert ops + [Delete(stored[k].id)] + DeleteFrom(stored, k + 1) == ops + ([Delete(stored[k].id)] + DeleteFrom(stored, k + 1));
      ops := ops + [Delete(stored[k].id)];
      k := k + 1;
    }
  }

  /** One pass of the main merge loop: the operations it emits and the cursors it moves to. */
  method MergePass(stored: seq<Song>, songs: seq<Song>, oldIdx: nat, newIdx: nat)
    returns (ops: seq<Op>, nextOld: nat, nextNew: nat)
    requires oldIdx < |stored| && newIdx < |songs|
    ensures oldIdx < nextOld <= |stored| && newIdx <= nextNew <= |songs|
    ensures MergeFrom(stored, songs, oldIdx, newIdx) == ops + MergeFrom(stored, songs, nextOld, nextNew)
  {
    MergeFromStep(stored, songs, oldIdx, newIdx);
    var c := CompareById(stored[oldIdx], songs[newIdx]);
    if c < 0 {
      ops := [Delete(stored[oldIdx].id)];
      nextOld, nextNew := oldIdx + 1, newIdx;
    } else if c == 0 {
      ops := if stored[oldIdx] != songs[newIdx] then [Update(stored[oldIdx].id, RowOf(songs[newIdx]))] else [];
      nextOld, nextNew := oldIdx + 1, newIdx + 1;
    } else {
      ops := [Insert(RowOf(songs[newIdx]), Some(songs[newIdx].id))];
      nextOld, nextNew := oldIdx + 1, newIdx + 1;
    }
  }

  /** The batch construction of updateSongsInDb, with its cursors and loops. */
  method BuildBatch(stored: seq<Song>, songs: seq<Song>) returns (batch: seq<Op>)
    ensures batch == Batch(stored, songs)
  {
    if |stored| == 0 {
      batch := InsertTail(songs, 0);
    } else if |stored| == 0 {
      batch := [ClearTable];
    } else {
      ghost var target := MergeFrom(stored, songs, 0, 0);
      batch := [];
      var newIdx, oldIdx := 0, 0;
      while newIdx < |songs| && oldIdx < |stored|
        invariant newIdx <= |songs| && oldIdx <= |stored|
        invariant batch + MergeFrom(stored, songs, oldIdx, newIdx) == target
        decreases |stored| - oldIdx + |songs| - newIdx
      {
        var ops, o, n := MergePass(stored, songs, oldIdx, newIdx);
        assert batch + ops + MergeFrom(stored, songs, o, n) == batch + (ops + MergeFrom(stored, songs, o, n));
        batch := batch + ops;
        oldIdx, newIdx := o, n;
      }
      MergeFromTail(stored, songs, oldIdx, newIdx);
      var rest: seq<Op>;
      if newIdx < |songs| {
        rest := InsertTail(songs, newIdx);
      } else {
        rest := DeleteTail(stored, oldIdx);
      }
      batch := batch + rest;
    }
  }

  // ---------------------------------------------------------------------------
  // The persisted table and what applying a batch does to it
  // ---------------------------------------------------------------------------

  /** The song table, keyed by song id (the column is UNIQUE). */
  type Store = map<int, Row>

  /** The table holding exactly the songs of `s` (the first one wins for a repeated id). */
  function StoreOf(s: seq<Song>): Store {
    if s == [] then map[] else StoreOf(s[1..])[s[0].id := RowOf(s[0])]
  }

  /** The table's keys are exactly the ids of the list. */
  lemma {:induction false} StoreOfKeys(s: seq<Song>)
    ensures StoreOf(s).Keys == Ids(s)
  {
    if s != [] {
      StoreOfKeys(s[1..]);
      forall x | x in Ids(s) ensures x in Ids(s[1..]) + {s[0].id} {
        var k :| 0 <= k < |s| && s[k].id == x;
        if k > 0 { assert s[1..][k - 1] == s[k]; }
      }
    }
  }

  /**
   * One operation on the table. An insert whose song id is already present is
   * refused by the UNIQUE column and leaves the table as it is (the batch goes on);
   * an update rewrites the selected row, if there is one; a delete removes it.
   */
  function ApplyOp(st: Store, op: Op): (r: Store)
    ensures op.Insert? ==> op.values.songId in r && forall id :: id in st ==> id in r && r[id] == st[id]
    ensures op.Insert? && op.values.songId !in st ==> r[op.values.songId] == op.values
    ensures op.Insert? ==> r.Keys == st.Keys + {op.values.songId}
    ensures op.Update? && op.songId in st ==> op.values.songId in r && r[op.values.songId] == op.values
    ensures op.Update? && op.songId in st ==>
      r.Keys == st.Keys - {op.songId} + {op.values.songId} &&
      forall id :: id in r && id != op.values.songId ==> r[id] == st[id]
    ensures op.Update? && op.songId !in st ==> r == st
    ensures op.Delete? ==> op.songId !in r && forall id :: id in r ==> id in st && r[id] == st[id]
    ensures op.Delete? ==> forall id :: id in st && id != op.songId ==> id in r
    ensures op.ClearTable? ==> r == map[]
  {
    match op
    case Insert(values, _) =>
      if values.songId in st then st else st[values.songId := values]
    case Update(sel, values) =>
      if sel in st then (st - {sel})[values.songId := values] else st
    case Delete(sel) =>
      st - {sel}
    case ClearTable =>
      map[]
  }

  /** The operations of a batch, applied in order. */
  function ApplyBatch(st: Store, ops: seq<Op>): Store
    decreases |ops|
  {
    if ops == [] then st else ApplyBatch(ApplyOp(st, ops[0]), ops[1..])
  }

  /**
   * What updateSongsInDb ends with: the table after the batch; a failure while the batch
   * is being built, before the table is touched; or the failure of applying it, rethrown.
   */
  datatype SyncOutcome = Synced(store: Store) | SelectionRejected | BatchFailed

  /** Whether a batch holds an insert with a selection (only the main merge loop's insert branch builds one). */
  predicate HasSelectingInsert(ops: seq<Op>) {
    exists k :: 0 <= k < |ops| && SelectingInsert(ops[k])
  }

  /**
   * updateSongsInDb: sorts the caller's list in place, builds the batch against the
   * stored songs (read sorted by id) and applies it.
   * `selectionOnInsertRejected` stands for the operation builder refusing the selection
   * attached to an insert, which throws while the batch is built, before any call to
   * the content resolver; otherwise the selection has no effect on the insert.
   * `applyBatchThrows` stands for the content resolver rejecting the batch, which
   * surfaces as a failure, not a return.
   */
  method UpdateSongsInDb(stored: seq<Song>, songs: array<Song>, selectionOnInsertRejected: bool, applyBatchThrows: bool)
    returns (batch: seq<Op>, outcome: SyncOutcome)
    modifies songs
    ensures SortedById(songs[..]) && multiset(songs[..]) == multiset(old(songs[..]))
    ensures batch == Batch(stored, songs[..])
    ensures selectionOnInsertRejected && HasSelectingInsert(batch) ==> outcome == SelectionRejected
    ensures !(selectionOnInsertRejected && HasSelectingInsert(batch)) && applyBatchThrows ==> outcome == BatchFailed
    ensures !(selectionOnInsertRejected && HasSelectingInsert(batch)) && !applyBatchThrows ==>
      outcome == Synced(ApplyBatch(StoreOf(stored), batch))
    ensures !applyBatchThrows && StrictlySortedById(stored) && StrictlySortedById(songs[..]) && AppendOnly(stored, songs[..])
      ==> outcome == Synced(StoreOf(songs[..]))
    ensures selectionOnInsertRejected && !applyBatchThrows && StrictlySortedById(stored) && StrictlySortedById(songs[..])
      ==> (outcome == Synced(StoreOf(songs[..])) <==> AppendOnly(stored, songs[..]))
  {
    SortById(songs);
    batch := BuildBatch(stored, songs[..]);
    if StrictlySortedById(stored) && StrictlySortedById(songs[..]) {
      InsertBranchFiresIffNotAppendOnly(stored, songs[..]);
    }
    if selectionOnInsertRejected && HasSelectingInsert(batch) {
      outcome := SelectionRejected;
    } else if applyBatchThrows {
      outcome := BatchFailed;
    } else {
      outcome := Synced(ApplyBatch(StoreOf(stored), batch));
      if StrictlySortedById(stored) && StrictlySortedById(songs[..]) && AppendOnly(stored, songs[..]) {
        BatchConverges(stored, songs[..]);
      }
    }
  }

  // ---------------------------------------------------------------------------
  // What the batch does and does not contain
  // ---------------------------------------------------------------------------

  /**
   * The side condition under which the merge never reaches its insert branch: every
   * song whose id is not stored has an id above every stored id.
   */
  ghost predicate AppendOnly(stored: seq<Song>, songs: seq<Song>) {
    forall x, y :: x in songs && y in stored && x.id !in Ids(stored) ==> y.id < x.id
  }

  lemma {:induction false} StoreOfAt(s: seq<Song>, k: nat)
    requires StrictlySortedById(s) && k < |s|
    ensures s[k].id in StoreOf(s) && StoreOf(s)[s[k].id] == RowOf(s[k])
  {
    if k > 0 {
      StoreOfAt(s[1..], k - 1);
    }
  }

  lemma {:induction false} StoreOfAppend(a: seq<Song>, b: seq<Song>)
    requires Ids(a) !! Ids(b)
    ensures StoreOf(a + b) == StoreOf(a) + StoreOf(b)
    decreases |a|
  {
    if a == [] {
      assert a + b == b;
    } else {
      assert (a + b)[1..] == a[1..] + b;
      assert Ids(a[1..]) <= Ids(a) by {
        forall k | 0 <= k < |a[1..]| ensures a[1..][k].id in Ids(a) { assert a[1..][k] == a[k + 1]; }
      }
      StoreOfAppend(a[1..], b);
      StoreOfKeys(b);
      assert a[0].id !in Ids(b);
    }
  }

  /** Extending a strictly sorted prefix by one song adds exactly that song's row. */
  lemma StoreOfSnoc(s: seq<Song>, j: nat)
    requires StrictlySortedById(s) && j < |s|
    ensures StoreOf(s[..j + 1]) == StoreOf(s[..j])[s[j].id := RowOf(s[j])]
  {
    assert s[..j + 1] == s[..j] + [s[j]];
    assert Ids([s[j]]) == {s[j].id};
    assert s[j].id !in Ids(s[..j]);
    StoreOfAppend(s[..j], [s[j]]);
    assert StoreOf([s[j]]) == map[s[j].id := RowOf(s[j])] by {
      assert [s[j]][1..] == [];
    }
  }

  /** A stored list seen from cursor `i`: the song under the cursor and the rows after it. */
  lemma StoreOfFrom(stored: seq<Song>, i: nat)
    requires StrictlySortedById(stored) && i < |stored|
    ensures StoreOf(stored[i..]) == StoreOf(stored[i + 1..])[stored[i].id := RowOf(stored[i])]
    ensures stored[i].id !in StoreOf(stored[i + 1..])
  {
    assert stored[i..][1..] == stored[i + 1..];
    StoreOfKeys(stored[i + 1..]);
  }

  /** The new songs before cursor `j` all have ids below the stored songs from cursor `i` on. */
  ghost predicate NewBeforeStoredRest(stored: seq<Song>, songs: seq<Song>, i: nat, j: nat)
    requires i <= |stored| && j <= |songs|
  {
    forall p, q :: 0 <= p < j && i <= q < |stored| ==> songs[p].id < stored[q].id
  }

  /** The stored songs before cursor `i` all have ids below the new songs from cursor `j` on. */
  ghost predicate StoredBeforeNewRest(stored: seq<Song>, songs: seq<Song>, i: nat, j: nat)
    requires i <= |stored| && j <= |songs|
  {
    forall p, q :: 0 <= p < i && j <= q < |songs| ==> stored[p].id < songs[q].id
  }

  /** The merge's cursor moves keep the new songs already passed below the stored songs still ahead. */
  lemma NewBeforeStoredStep(stored: seq<Song>, songs: seq<Song>, i: nat, j: nat)
    requires StrictlySortedById(stored) && i < |stored| && j < |songs|
    requires NewBeforeStoredRest(stored, songs, i, j)
    ensures stored[i].id < songs[j].id ==> NewBeforeStoredRest(stored, songs, i + 1, j)
    ensures stored[i].id >= songs[j].id ==> NewBeforeStoredRest(stored, songs, i + 1, j + 1)
  {
  }

  /** Without the insert branch, the cursor moves keep the stored songs passed below the new songs ahead. */
  lemma StoredBeforeNewStep(stored: seq<Song>, songs: seq<Song>, i: nat, j: nat)
    requires StrictlySortedById(songs) && i < |stored| && j < |songs|
    requires StoredBeforeNewRest(stored, songs, i, j)
    ensures stored[i].id < songs[j].id ==> StoredBeforeNewRest(stored, songs, i + 1, j)
    ensures stored[i].id == songs[j].id ==> StoredBeforeNewRest(stored, songs, i + 1, j + 1)
  {
  }

  /** Under AppendOnly, a song under the new cursor never has an id below the stored cursor's. */
  lemma NoInsertBranch(stored: seq<Song>, songs: seq<Song>, i: nat, j: nat)
    requires StrictlySortedById(stored) && AppendOnly(stored, songs)
    requires i < |stored| && j < |songs|
    requires StoredBeforeNewRest(stored, songs, i, j)
    ensures stored[i].id <= songs[j].id
  {
    if songs[j].id in Ids(stored) {
      var q :| 0 <= q < |stored| && stored[q].id == songs[j].id;
      assert i <= q;
    } else {
      assert songs[j] in songs && stored[i] in stored;
    }
  }

  /** The tail-insert loop completes the table to the whole new list. */
  lemma {:induction false} InsertAllConverges(songs: seq<Song>, j: nat)
    requires StrictlySortedById(songs) && j <= |songs|
    ensures ApplyBatch(StoreOf(songs[..j]), InsertAll(songs, j)) == StoreOf(songs)
    decreases |songs| - j
  {
    if j == |songs| {
      assert songs[..j] == songs;
    } else {
      InsertAllStep(songs, j);
      StoreOfSnoc(songs, j);
      var op := Insert(RowOf(songs[j]), None);
      assert ([op] + InsertAll(songs, j + 1))[1..] == InsertAll(songs, j + 1);
      assert songs[j].id !in Ids(songs[..j]);
      StoreOfKeys(songs[..j]);
      assert ApplyOp(StoreOf(songs[..j]), op) == StoreOf(songs[..j + 1]);
      InsertAllConverges(songs, j + 1);
    }
  }

  /** The tail-delete loop removes exactly the stored songs left after the cursor. */
  lemma {:induction false} DeleteFromConverges(stored: seq<Song>, songs: seq<Song>, i: nat)
    requires StrictlySortedById(stored) && i <= |stored|
    requires NewBeforeStoredRest(stored, songs, i, |songs|)
    ensures ApplyBatch(StoreOf(songs) + StoreOf(stored[i..]), DeleteFrom(stored, i)) == StoreOf(songs)
    decreases |stored| - i
  {
    if i == |stored| {
      assert StoreOf(stored[i..]) == map[];
      assert StoreOf(songs) + map[] == StoreOf(songs);
    } else {
      DeleteFromStep(stored, i);
      StoreOfFrom(stored, i);
      var id := stored[i].id;
      assert id !in Ids(songs);
      StoreOfKeys(songs);
      MoveKeyLeft(StoreOf(songs), StoreOf(stored[i + 1..]), id, RowOf(stored[i]), RowOf(stored[i]));
      ApplyBatchCons(StoreOf(songs) + StoreOf(stored[i..]), Delete(id), DeleteFrom(stored, i + 1));
      DeleteFromConverges(stored, songs, i + 1);
    }
  }

  lemma ApplyBatchCons(st: Store, op: Op, rest: seq<Op>)
    ensures ApplyBatch(st, [op] + rest) == ApplyBatch(ApplyOp(st, op), rest)
  {
    assert ([op] + rest)[1..] == rest;
  }

  /** Main-loop delete: the table loses the stale stored row under the cursor. */
  lemma DeleteStepStore(stored: seq<Song>, songs: seq<Song>, i: nat, j: nat)
    requires StrictlySortedById(stored) && i < |stored| && j <= |songs|
    requires NewBeforeStoredRest(stored, songs, i, j)
    ensures ApplyOp(StoreOf(songs[..j]) + StoreOf(stored[i..]), Delete(stored[i].id))
            == StoreOf(songs[..j]) + StoreOf(stored[i + 1..])
  {
    StoreOfFrom(stored, i);
    StoreOfKeys(songs[..j]);
  }

  /** Moving one key from the right-hand table of a union to its left-hand one. */
  lemma MoveKeyLeft(left: Store, right: Store, id: int, was: Row, now: Row)
    requires id !in left && id !in right
    ensures (left + right[id := was]) - {id} == left + right
    ensures (left + right)[id := now] == left[id := now] + right
    ensures was == now ==> left + right[id := was] == left[id := now] + right
  {
  }

  /** Main-loop match: the stored row under the cursor ends up holding the new song's values. */
  lemma MatchStepStore(stored: seq<Song>, songs: seq<Song>, i: nat, j: nat)
    requires StrictlySortedById(stored) && StrictlySortedById(songs) && i < |stored| && j < |songs|
    requires stored[i].id == songs[j].id
    ensures var st := StoreOf(songs[..j]) + StoreOf(stored[i..]);
            var next := StoreOf(songs[..j + 1]) + StoreOf(stored[i + 1..]);
            (if stored[i] != songs[j] then ApplyOp(st, Update(stored[i].id, RowOf(songs[j]))) else st) == next
  {
    var id := stored[i].id;
    StoreOfFrom(stored, i);
    StoreOfSnoc(songs, j);
    StoreOfKeys(songs[..j]);
    assert id !in Ids(songs[..j]);
    MoveKeyLeft(StoreOf(songs[..j]), StoreOf(stored[i + 1..]), id, RowOf(stored[i]), RowOf(songs[j]));
  }

  /**
   * From any cursor pair the merge can reach, applying the rest of the batch to
   * "new songs before j, stored songs from i" yields the new list, provided the
   * insert branch never fires.
   */
  lemma {:induction false} MergeConverges(stored: seq<Song>, songs: seq<Song>, i: nat, j: nat)
    requires StrictlySortedById(stored) && StrictlySortedById(songs) && AppendOnly(stored, songs)
    requires i <= |stored| && j <= |songs|
    requires NewBeforeStoredRest(stored, songs, i, j)
    requires StoredBeforeNewRest(stored, songs, i, j)
    ensures ApplyBatch(StoreOf(songs[..j]) + StoreOf(stored[i..]), MergeFrom(stored, songs, i, j)) == StoreOf(songs)
    decreases |stored| - i + |songs| - j
  {
    var st := StoreOf(songs[..j]) + StoreOf(stored[i..]);
    if i < |stored| && j < |songs| {
      MergeFromStep(stored, songs, i, j);
      NoInsertBranch(stored, songs, i, j);
      NewBeforeStoredStep(stored, songs, i, j);
      StoredBeforeNewStep(stored, songs, i, j);
      if stored[i].id < songs[j].id {
        DeleteStepStore(stored, songs, i, j);
        ApplyBatchCons(st, Delete(stored[i].id), MergeFrom(stored, songs, i + 1, j));
        MergeConverges(stored, songs, i + 1, j);
      } else {
        MatchStepStore(stored, songs, i, j);
        if stored[i] != songs[j] {
          ApplyBatchCons(st, Update(stored[i].id, RowOf(songs[j])), MergeFrom(stored, songs, i + 1, j + 1));
        }
        MergeConverges(stored, songs, i + 1, j + 1);
      }
    } else if j < |songs| {
      MergeFromTail(stored, songs, i, j);
      assert StoreOf(stored[i..]) == map[];
      assert st == StoreOf(songs[..j]);
      InsertAllConverges(songs, j);
    } else {
      MergeFromTail(stored, songs, i, j);
      assert songs[..j] == songs;
      DeleteFromConverges(stored, songs, i);
    }
  }

  /**
   * The promise of the doc comment, under its side condition: when both lists are
   * strictly sorted by id and new ids only ever come after the stored ones, applying
   * the batch turns the stored table into exactly the new list.
   */
  lemma BatchConverges(stored: seq<Song>, songs: seq<Song>)
    requires StrictlySortedById(stored) && StrictlySortedById(songs) && AppendOnly(stored, songs)
    ensures ApplyBatch(StoreOf(stored), Batch(stored, songs)) == StoreOf(songs)
  {
    assert songs[..0] == [];
    if stored == [] {
      InsertAllConverges(songs, 0);
    } else {
      assert stored[0..] == stored;
      assert StoreOf(songs[..0]) + StoreOf(stored) == StoreOf(stored);
      MergeConverges(stored, songs, 0, 0);
    }
  }

  // ---------------------------------------------------------------------------
  // The shape of the batch
  // ---------------------------------------------------------------------------

  lemma {:induction false} InsertAllShape(songs: seq<Song>, j: nat)
    requires j <= |songs|
    ensures |InsertAll(songs, j)| == |songs| - j
    ensures forall k :: 0 <= k < |songs| - j ==> InsertAll(songs, j)[k] == Insert(RowOf(songs[j + k]), None)
    decreases |songs| - j
  {
    if j < |songs| {
      InsertAllStep(songs, j);
      InsertAllShape(songs, j + 1);
    }
  }

  lemma {:induction false} DeleteFromShape(stored: seq<Song>, i: nat)
    requires i <= |stored|
    ensures |DeleteFrom(stored, i)| == |stored| - i
    ensures forall k :: 0 <= k < |stored| - i ==> DeleteFrom(stored, i)[k] == Delete(stored[i + k].id)
    decreases |stored| - i
  {
    if i < |stored| {
      DeleteFromStep(stored, i);
      DeleteFromShape(stored, i + 1);
    }
  }

  /** Nothing stored yet: one plain insert per new song, in the new list's order, and nothing else. */
  lemma BatchForEmptyStore(songs: seq<Song>)
    ensures |Batch([], songs)| == |songs|
    ensures forall k :: 0 <= k < |songs| ==> Batch([], songs)[k] == Insert(RowOf(songs[k]), None)
  {
    InsertAllShape(songs, 0);
  }

  /**
   * Songs stored but an empty new list: one delete by id per stored song, in stored
   * order. The "no new songs" branch that would clear the table tests the stored list
   * again instead of the new one, so it never runs; the tail-delete loop does the work.
   */
  lemma BatchForEmptyList(stored: seq<Song>)
    requires stored != []
    ensures |Batch(stored, [])| == |stored|
    ensures forall k :: 0 <= k < |stored| ==> Batch(stored, [])[k] == Delete(stored[k].id)
  {
    MergeFromTail(stored, [], 0, 0);
    DeleteFromShape(stored, 0);
  }

  lemma {:induction false} MergeFromSame(s: seq<Song>, i: nat)
    requires i <= |s|
    ensures MergeFrom(s, s, i, i) == []
    decreases |s| - i
  {
    if i < |s| {
      MergeFromStep(s, s, i, i);
      MergeFromSame(s, i + 1);
    } else {
      MergeFromTail(s, s, i, i);
    }
  }

  /** Reconciling a list with itself emits no operation at all. */
  lemma BatchOfSameList(s: seq<Song>)
    ensures Batch(s, s) == []
  {
    if s == [] {
      InsertAllShape(s, 0);
    } else {
      MergeFromSame(s, 0);
    }
  }

  /**
   * What each operation of a batch is allowed to be: an insert carries the row of
   * some new song; an update selects an id present on both sides with different
   * content and carries the new song's row; a delete selects a stored id that occurs
   * nowhere in the new list; the table is never cleared.
   */
  ghost predicate Justified(stored: seq<Song>, songs: seq<Song>, op: Op) {
    match op
    case Insert(values, _) =>
      exists q :: 0 <= q < |songs| && values == RowOf(songs[q])
    case Update(id, values) =>
      exists p, q :: 0 <= p < |stored| && 0 <= q < |songs|
        && stored[p].id == id == songs[q].id && stored[p] != songs[q] && values == RowOf(songs[q])
    case Delete(id) =>
      id in Ids(stored) && id !in Ids(songs)
    case ClearTable =>
      false
  }

  lemma {:induction false} MergeJustified(stored: seq<Song>, songs: seq<Song>, i: nat, j: nat)
    requires StrictlySortedById(stored) && SortedById(songs)
    requires i <= |stored| && j <= |songs|
    requires NewBeforeStoredRest(stored, songs, i, j)
    ensures forall k :: 0 <= k < |MergeFrom(stored, songs, i, j)| ==> Justified(stored, songs, MergeFrom(stored, songs, i, j)[k])
    decreases |stored| - i + |songs| - j
  {
    var m := MergeFrom(stored, songs, i, j);
    if i < |stored| && j < |songs| {
      MergeFromStep(stored, songs, i, j);
      NewBeforeStoredStep(stored, songs, i, j);
      if stored[i].id < songs[j].id {
        MergeJustified(stored, songs, i + 1, j);
        assert Justified(stored, songs, Delete(stored[i].id));
      } else {
        MergeJustified(stored, songs, i + 1, j + 1);
        if stored[i].id == songs[j].id && stored[i] != songs[j] {
          assert Justified(stored, songs, Update(stored[i].id, RowOf(songs[j])));
        } else if stored[i].id > songs[j].id {
          assert Justified(stored, songs, Insert(RowOf(songs[j]), Some(songs[j].id)));
        }
      }
    } else if j < |songs| {
      MergeFromTail(stored, songs, i, j);
      InsertAllShape(songs, j);
      forall k | 0 <= k < |m| ensures Justified(stored, songs, m[k]) {
        assert m[k] == Insert(RowOf(songs[j + k]), None);
      }
    } else {
      MergeFromTail(stored, songs, i, j);
      DeleteFromShape(stored, i);
      forall k | 0 <= k < |m| ensures Justified(stored, songs, m[k]) {
        assert m[k] == Delete(stored[i + k].id);
        assert stored[i + k].id !in Ids(songs);
      }
    }
  }

  /**
   * Every operation of the batch is justified by the two lists: updates only for
   * changed songs, deletes only for stale ids, and never the table-clearing delete.
   */
  lemma BatchJustified(stored: seq<Song>, songs: seq<Song>)
    requires StrictlySortedById(stored) && SortedById(songs)
    ensures forall k :: 0 <= k < |Batch(stored, songs)| ==> Justified(stored, songs, Batch(stored, songs)[k])
  {
    if stored == [] {
      InsertAllShape(songs, 0);
      forall k | 0 <= k < |songs| ensures Justified(stored, songs, Batch(stored, songs)[k]) {
        assert Batch(stored, songs)[k] == Insert(RowOf(songs[k]), None);
      }
    } else {
      MergeJustified(stored, songs, 0, 0);
    }
  }

  /** An insert that carries a selection: only the main merge loop's insert branch makes one. */
  predicate SelectingInsert(op: Op) {
    op.Insert? && op.selection.Some?
  }

  lemma {:induction false} InsertBranchReached(stored: seq<Song>, songs: seq<Song>, i: nat, j: nat, x: nat, y: nat)
    requires StrictlySortedById(stored) && StrictlySortedById(songs)
    requires i <= y < |stored| && j <= x < |songs|
    requires songs[x].id !in Ids(stored) && songs[x].id < stored[y].id
    ensures exists k :: 0 <= k < |MergeFrom(stored, songs, i, j)| && SelectingInsert(MergeFrom(stored, songs, i, j)[k])
    decreases |stored| - i + |songs| - j
  {
    MergeFromStep(stored, songs, i, j);
    var m := MergeFrom(stored, songs, i, j);
    if stored[i].id < songs[j].id {
      InsertBranchReached(stored, songs, i + 1, j, x, y);
      var k :| 0 <= k < |MergeFrom(stored, songs, i + 1, j)| && SelectingInsert(MergeFrom(stored, songs, i + 1, j)[k]);
      assert m[k + 1] == MergeFrom(stored, songs, i + 1, j)[k];
    } else if stored[i].id == songs[j].id {
      assert x != j;
      InsertBranchReached(stored, songs, i + 1, j + 1, x, y);
      var r := MergeFrom(stored, songs, i + 1, j + 1);
      var k :| 0 <= k < |r| && SelectingInsert(r[k]);
      if stored[i] != songs[j] {
        assert m[k + 1] == r[k];
      } else {
        assert m[k] == r[k];
      }
    } else {
      assert SelectingInsert(m[0]);
    }
  }

  lemma NoSelectingInsertConcat(a: seq<Op>, b: seq<Op>)
    requires forall k :: 0 <= k < |a| ==> !SelectingInsert(a[k])
    requires forall k :: 0 <= k < |b| ==> !SelectingInsert(b[k])
    ensures forall k :: 0 <= k < |a + b| ==> !SelectingInsert((a + b)[k])
  {
  }

  lemma {:induction false} InsertBranchAvoided(stored: seq<Song>, songs: seq<Song>, i: nat, j: nat)
    requires StrictlySortedById(stored) && StrictlySortedById(songs) && AppendOnly(stored, songs)
    requires i <= |stored| && j <= |songs|
    requires StoredBeforeNewRest(stored, songs, i, j)
    ensures forall k :: 0 <= k < |MergeFrom(stored, songs, i, j)| ==> !SelectingInsert(MergeFrom(stored, songs, i, j)[k])
    decreases |stored| - i + |songs| - j
  {
    if i < |stored| && j < |songs| {
      MergeFromStep(stored, songs, i, j);
      NoInsertBranch(stored, songs, i, j);
      StoredBeforeNewStep(stored, songs, i, j);
      if stored[i].id < songs[j].id {
        InsertBranchAvoided(stored, songs, i + 1, j);
        NoSelectingInsertConcat([Delete(stored[i].id)], MergeFrom(stored, songs, i + 1, j));
      } else {
        InsertBranchAvoided(stored, songs, i + 1, j + 1);
        NoSelectingInsertConcat(if stored[i] != songs[j] then [Update(stored[i].id, RowOf(songs[j]))] else [],
                                MergeFrom(stored, songs, i + 1, j + 1));
      }
    } else {
      MergeFromTail(stored, songs, i, j);
      InsertAllShape(songs, j);
      DeleteFromShape(stored, i);
    }
  }

  /**
   * For strictly sorted lists, the main loop's insert branch (the one that also steps
   * over a stored song) fires exactly when some new id is not stored and lies below
   * a stored id, i.e. exactly when the side condition of BatchConverges fails.
   */
  lemma InsertBranchFiresIffNotAppendOnly(stored: seq<Song>, songs: seq<Song>)
    requires StrictlySortedById(stored) && StrictlySortedById(songs)
    ensures HasSelectingInsert(Batch(stored, songs)) <==> !AppendOnly(stored, songs)
  {
    if stored == [] {
      InsertAllShape(songs, 0);
    } else if AppendOnly(stored, songs) {
      InsertBranchAvoided(stored, songs, 0, 0);
    } else {
      var a, b :| a in songs && b in stored && a.id !in Ids(stored) && !(b.id < a.id);
      var x :| 0 <= x < |songs| && songs[x] == a;
      var y :| 0 <= y < |stored| && stored[y] == b;
      assert stored[y].id in Ids(stored);
      InsertBranchReached(stored, songs, 0, 0, x, y);
      assert Batch(stored, songs) == MergeFrom(stored, songs, 0, 0);
    }
  }

  // ---------------------------------------------------------------------------
  // Without the side condition the promise fails: two concrete inputs
  // ---------------------------------------------------------------------------

  /**
   * stored = [2, 3], new = [1, 3]: the insert of 1 also steps over stored song 2,
   * which is then never deleted, so the table keeps a song the new list does not have.
   * The insert carries a selection; if that is refused, the table is left as it was
   * and still holds song 2. Either way song 2 outlives the sync.
   */
  lemma StaleSongSurvives()
    ensures var stored := [Song("A", "two", 2, 1), Song("A", "three", 3, 1)];
            var songs := [Song("A", "one", 1, 1), Song("A", "three", 3, 1)];
            && StrictlySortedById(stored) && StrictlySortedById(songs)
            && Batch(stored, songs) == [Insert(RowOf(songs[0]), Some(1))]
            && HasSelectingInsert(Batch(stored, songs))
            && 2 in ApplyBatch(StoreOf(stored), Batch(stored, songs))
            && 2 in StoreOf(stored)
            && 2 !in StoreOf(songs)
  {
    var stored := [Song("A", "two", 2, 1), Song("A", "three", 3, 1)];
    var songs := [Song("A", "one", 1, 1), Song("A", "three", 3, 1)];
    MergeFromStep(stored, songs, 0, 0);
    MergeFromStep(stored, songs, 1, 1);
    MergeFromTail(stored, songs, 2, 2);
    var batch := [Insert(RowOf(songs[0]), Some(1))];
    assert Batch(stored, songs) == batch;
    assert SelectingInsert(Batch(stored, songs)[0]);
    StoreOfKeys(stored);
    StoreOfKeys(songs);
    assert Ids(stored) == {2, 3} by { assert stored[0].id == 2 && stored[1].id == 3; }
    assert Ids(songs) == {1, 3} by { assert songs[0].id == 1 && songs[1].id == 3; }
    ApplyBatchCons(StoreOf(stored), batch[0], []);
    assert batch == [batch[0]] + [];
  }

  /**
   * stored = [2 (version 1)], new = [1, 2 (version 2)]: the insert of 1 consumes the
   * stored cursor, the tail loop then inserts 2 a second time, the UNIQUE column
   * refuses it, and the table keeps version 1 of song 2. The first insert carries a
   * selection; if that is refused, the untouched table also keeps version 1.
   */
  lemma ChangedSongNotUpdated()
    ensures var stored := [Song("A", "two", 2, 1)];
            var songs := [Song("A", "one", 1, 1), Song("A", "two", 2, 2)];
            var after := ApplyBatch(StoreOf(stored), Batch(stored, songs));
            && StrictlySortedById(stored) && StrictlySortedById(songs)
            && Batch(stored, songs) == [Insert(RowOf(songs[0]), Some(1)), Insert(RowOf(songs[1]), None)]
            && HasSelectingInsert(Batch(stored, songs))
            && 2 in after && after[2] == RowOf(stored[0])
            && 2 in StoreOf(stored) && StoreOf(stored)[2] == RowOf(stored[0])
            && StoreOf(songs)[2] == RowOf(songs[1]) != RowOf(stored[0])
  {
    var stored := [Song("A", "two", 2, 1)];
    var songs := [Song("A", "one", 1, 1), Song("A", "two", 2, 2)];
    MergeFromStep(stored, songs, 0, 0);
    MergeFromTail(stored, songs, 1, 1);
    InsertAllStep(songs, 1);
    assert InsertAll(songs, 2) == [];
    var op0, op1 := Insert(RowOf(songs[0]), Some(1)), Insert(RowOf(songs[1]), None);
    assert Batch(stored, songs) == [op0, op1];
    assert SelectingInsert(Batch(stored, songs)[0]);
    var st0 := StoreOf(stored);
    assert st0 == map[2 := RowOf(stored[0])] by { assert stored[1..] == []; }
    ApplyBatchCons(st0, op0, [op1]);
    var st1 := ApplyOp(st0, op0);
    ApplyBatchCons(st1, op1, []);
    assert [op0, op1] == [op0] + [op1] && [op1] == [op1] + [];
    assert StoreOf(songs)[2] == RowOf(songs[1]) by {
      assert songs[1..] == [songs[1]] && songs[1..][1..] == [];
    }
  }

  /**
   * stored = [2], new = [1, 2] with song 2 unchanged: the insert branch fires, so
   * AppendOnly fails, yet the table still ends holding the new list, because the
   * second insert of 2 is refused and the row it would have written is already there.
   * AppendOnly is sufficient for convergence, not necessary.
   */
  lemma AppendOnlyNotNecessary()
    ensures var stored := [Song("A", "two", 2, 1)];
            var songs := [Song("A", "one", 1, 1), Song("A", "two", 2, 1)];
            && StrictlySortedById(stored) && StrictlySortedById(songs)
            && !AppendOnly(stored, songs)
            && ApplyBatch(StoreOf(stored), Batch(stored, songs)) == StoreOf(songs)
  {
    var stored := [Song("A", "two", 2, 1)];
    var songs := [Song("A", "one", 1, 1), Song("A", "two", 2, 1)];
    assert songs[0] in songs && stored[0] in stored;
    StoreOfKeys(stored);
    assert 1 !in Ids(stored);
    MergeFromStep(stored, songs, 0, 0);
    MergeFromTail(stored, songs, 1, 1);
    InsertAllStep(songs, 1);
    assert InsertAll(songs, 2) == [];
    var op0, op1 := Insert(RowOf(songs[0]), Some(1)), Insert(RowOf(songs[1]), None);
    assert Batch(stored, songs) == [op0, op1];
    var st0 := StoreOf(stored);
    assert st0 == map[2 := RowOf(stored[0])] by { assert stored[1..] == []; }
    ApplyBatchCons(st0, op0, [op1]);
    var st1 := ApplyOp(st0, op0);
    ApplyBatchCons(st1, op1, []);
    assert [op0, op1] == [op0] + [op1] && [op1] == [op1] + [];
    assert StoreOf(songs) == map[2 := RowOf(songs[1])][1 := RowOf(songs[0])] by {
      assert songs[1..] == [songs[1]] && songs[1..][1..] == [];
    }
  }
}
