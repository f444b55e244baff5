/**
 * The view reconciler: the list adapter behind the song grid.
 *
 * The adapter keeps the songs it shows and, when a fresh copy of the stored songs
 * arrives, merges it into its own list in place, telling the view after every single
 * mutation which position was inserted, removed or changed. The view's callbacks are
 * modelled as a ghost log of notifications; replaying that log is how the view would
 * follow along.
 */
module Adapter {
  import opened Songs

  const TWO_TO_THE_64: int := 0x1_0000_0000_0000_0000

  /** `x` reduced into 64-bit two's complement, as Java's `long` arithmetic does. */
  function WrapLong(x: int): (r: int)
    ensures IsLong(r)
    ensures IsLong(x) ==> r == x
    ensures (x - r) % TWO_TO_THE_64 == 0
  {
    (x - MIN_LONG) % TWO_TO_THE_64 + MIN_LONG
  }

  /**
   * The adapter's sSongByIdComparator: the sign of `a.id - b.id` computed in 64 bits.
   * It orders ids correctly whenever that difference does not overflow.
   */
  function CompareBySubtraction(a: Song, b: Song): (r: int)
    ensures r == -1 || r == 0 || r == 1
    ensures IsLong(a.id - b.id) ==> (r < 0 <==> a.id < b.id)
    ensures IsLong(a.id - b.id) ==> (r == 0 <==> a.id == b.id)
    ensures IsLong(a.id - b.id) ==> (r > 0 <==> a.id > b.id)
  {
    var d := WrapLong(a.id - b.id);
    if d < 0 then -1 else if d > 0 then 1 else 0
  }

  /** For two 64-bit ids the comparator says "equal" exactly when the ids are equal: overflow only flips the order. */
  lemma CompareBySubtractionEqual(a: Song, b: Song)
    requires IsLong(a.id) && IsLong(b.id)
    ensures CompareBySubtraction(a, b) == 0 <==> a.id == b.id
  {
    var x := a.id - b.id;
    var d := WrapLong(x);
    if d == 0 {
      assert x % TWO_TO_THE_64 == 0;
      assert -TWO_TO_THE_64 < x < TWO_TO_THE_64;
    }
  }

  /**
   * The converse of the no-overflow case: for two 64-bit ids whose difference does
   * overflow, the comparator always reports the reverse of the ids' order.
   */
  lemma CompareBySubtractionOverflowReverses(a: Song, b: Song)
    requires IsLong(a.id) && IsLong(b.id) && !IsLong(a.id - b.id)
    ensures a.id > b.id ==> CompareBySubtraction(a, b) == -1
    ensures a.id < b.id ==> CompareBySubtraction(a, b) == 1
  {
    var x := a.id - b.id;
    if a.id > b.id {
      assert (x - MIN_LONG) % TWO_TO_THE_64 == x - MIN_LONG - TWO_TO_THE_64;
    } else {
      assert (x - MIN_LONG) % TWO_TO_THE_64 == x - MIN_LONG + TWO_TO_THE_64;
    }
  }

  /** Every song compares equal to itself: the difference 0 cannot overflow. */
  lemma CompareBySubtractionReflexive(a: Song)
    ensures CompareBySubtraction(a, a) == 0
  {
  }

  /** The largest id against id -1: the difference overflows and the larger id compares as smaller. */
  lemma CompareBySubtractionOverflows()
    ensures var big := Song("", "", MAX_LONG, 0);
            var minusOne := Song("", "", -1, 0);
            big.id > minusOne.id && CompareBySubtraction(big, minusOne) == -1
  {
    assert WrapLong(MAX_LONG + 1) == MIN_LONG;
  }

  /** What the adapter tells its view after each mutation of its list. */
  datatype Notification =
    | ItemInserted(position: nat, song: Song)
    | ItemRemoved(position: nat)
    | ItemChanged(position: nat, song: Song)

  /** The list a view holds after following one notification; None if its position is out of range. */
  function Follow(list: seq<Song>, n: Notification): Option<seq<Song>> {
    match n
    case ItemInserted(p, x) => if p <= |list| then Some(list[..p] + [x] + list[p..]) else None
    case ItemRemoved(p) => if p < |list| then Some(list[..p] + list[p + 1..]) else None
    case ItemChanged(p, x) => if p < |list| then Some(list[p := x]) else None
  }

  /** Whether a notification's position is valid for a list of `size` entries. */
  predicate InRange(n: Notification, size: nat) {
    match n
    case ItemInserted(p, _) => p <= size
    case ItemRemoved(p) => p < size
    case ItemChanged(p, _) => p < size
  }

  /** Following a log of notifications in order, starting from `list`. */
  function Replay(list: seq<Song>, log: seq<Notification>): Option<seq<Song>>
    decreases |log|
  {
    if log == [] then Some(list)
    else
      match Replay(list, log[..|log| - 1])
      case None => None
      case Some(t) => Follow(t, log[|log| - 1])
  }

  lemma ReplaySnoc(list: seq<Song>, log: seq<Notification>, n: Notification)
    ensures Replay(list, log + [n]) == match Replay(list, log) case None => None case Some(t) => Follow(t, n)
  {
    assert (log + [n])[..|log|] == log;
  }

  lemma {:induction false} ReplayConcat(list: seq<Song>, a: seq<Notification>, b: seq<Notification>)
    ensures Replay(list, a + b) == match Replay(list, a) case None => None case Some(t) => Replay(t, b)
    decreases |b|
  {
    if b == [] {
      assert a + b == a;
    } else {
      var b' := b[..|b| - 1];
      var n := b[|b| - 1];
      assert b == b' + [n];
      assert a + b == (a + b') + [n];
      ReplayConcat(list, a, b');
      ReplaySnoc(list, a + b', n);
      match Replay(list, a)
      case None =>
      case Some(t) => ReplaySnoc(t, b', n);
    }
  }

  /**
   * A log that replays without error had, at every notification, a position that was
   * valid for the list as it stood just before that notification.
   */
  lemma {:induction false} ReplayedPositionsValid(list: seq<Song>, log: seq<Notification>, k: nat)
    requires Replay(list, log).Some? && k < |log|
    ensures Replay(list, log[..k]).Some? && InRange(log[k], |Replay(list, log[..k]).value|)
    decreases |log|
  {
    var init := log[..|log| - 1];
    if k == |log| - 1 {
      assert log[..k] == init;
    } else {
      assert init[..k] == log[..k];
      ReplayedPositionsValid(list, init, k);
    }
  }

  // While the merge runs, the shown list is the part of the new list already merged
  // followed by what is left of the old list; each mutation moves one song across.

  lemma RemoveAtCursor(list: seq<Song>, newItems: seq<Song>, before: seq<Song>, j: nat, o: nat)
    requires j <= |newItems| && o < |before| && list == newItems[..j] + before[o..]
    ensures j < |list| && list[..j] + list[j + 1..] == newItems[..j] + before[o + 1..]
  {
    assert list[..j] == newItems[..j];
    assert list[j + 1..] == before[o + 1..];
  }

  lemma ChangeAtCursor(list: seq<Song>, newItems: seq<Song>, before: seq<Song>, j: nat, o: nat)
    requires j < |newItems| && o < |before| && list == newItems[..j] + before[o..]
    ensures j < |list| && list[j := newItems[j]] == newItems[..j + 1] + before[o + 1..]
  {
    assert newItems[..j + 1] == newItems[..j] + [newItems[j]];
    assert list[j := newItems[j]] == newItems[..j] + [newItems[j]] + before[o + 1..];
  }

  lemma KeepAtCursor(list: seq<Song>, newItems: seq<Song>, before: seq<Song>, j: nat, o: nat)
    requires j < |newItems| && o < |before| && list == newItems[..j] + before[o..]
    requires before[o] == newItems[j]
    ensures list == newItems[..j + 1] + before[o + 1..]
  {
    assert newItems[..j + 1] == newItems[..j] + [newItems[j]];
    assert before[o..] == [before[o]] + before[o + 1..];
  }

  lemma InsertAtCursor(list: seq<Song>, newItems: seq<Song>, before: seq<Song>, j: nat, o: nat)
    requires j < |newItems| && o <= |before| && list == newItems[..j] + before[o..]
    ensures j <= |list| && list[..j] + [newItems[j]] + list[j..] == newItems[..j + 1] + before[o..]
  {
    assert list[..j] == newItems[..j];
    assert list[j..] == before[o..];
    assert newItems[..j + 1] == newItems[..j] + [newItems[j]];
  }

  lemma DropLast(list: seq<Song>, newItems: seq<Song>, before: seq<Song>, o: nat, k: nat, p: nat)
    requires o < k <= |before| && list == newItems + before[o..k] && p + 1 == |list|
    ensures list[..p] + list[p + 1..] == newItems + before[o..k - 1]
  {
    assert list[..p] == newItems + before[o..k - 1];
  }

  /**
   * Extending a log kept as the tail of all notifications sent. Stated on its own so
   * that the merge loops get the regrouping without reasoning about sequence equality.
   */
  lemma LogAppend(prior: seq<Notification>, log: seq<Notification>, sent: seq<Notification>)
    ensures prior + log + sent == prior + (log + sent)
  {
  }

  /**
   * The side condition under which the merge reproduces the new list exactly: both
   * lists strictly ascending by id, and no id difference the comparator computes overflows.
   */
  predicate MergeSafe(current: seq<Song>, items: seq<Song>) {
    && StrictlySortedById(current)
    && StrictlySortedById(items)
    && forall p, q :: 0 <= p < |current| && 0 <= q < |items| ==> IsLong(current[p].id - items[q].id)
  }

  /**
   * The last song merged has a smaller id than the next song of the old list; when the
   * old list is strictly sorted, smaller than every song of it not yet merged.
   */
  predicate MergedBelowRest(before: seq<Song>, newItems: seq<Song>, o: nat, j: nat)
    requires j <= |newItems|
  {
    0 < j && o < |before| ==> newItems[j - 1].id < before[o].id
  }

  /**
   * What one pass of the merge loop does with the cursors `o` (old list) and `j` (new
   * list) and which notifications it sends, decided by comparing the two songs there.
   */
  predicate StepOutcome(before: seq<Song>, newItems: seq<Song>, o: nat, j: nat, o': nat, j': nat, sent: seq<Notification>)
    requires o < |before| && j < |newItems|
  {
    var c := CompareBySubtraction(before[o], newItems[j]);
    && (c < 0 ==> o' == o + 1 && j' == j && sent == [ItemRemoved(j)])
    && (c == 0 ==> o' == o + 1 && j' == j + 1 &&
                   sent == if before[o] == newItems[j] then [] else [ItemChanged(j, newItems[j])])
    && (c > 0 ==> o' == o && j' == j + 1 && sent == [ItemInserted(j, newItems[j])])
  }

  /** One merge pass keeps MergedBelowRest, whichever way the comparison goes. */
  lemma MergedBelowRestStep(before: seq<Song>, newItems: seq<Song>, o: nat, j: nat, o': nat, j': nat, sent: seq<Notification>)
    requires MergeSafe(before, newItems) && o < |before| && j < |newItems| && j' <= |newItems|
    requires MergedBelowRest(before, newItems, o, j)
    requires StepOutcome(before, newItems, o, j, o', j', sent)
    ensures MergedBelowRest(before, newItems, o', j')
  {
    assert IsLong(before[o].id - newItems[j].id);
    if o + 1 < |before| {
      assert before[o].id < before[o + 1].id;
    }
  }

  /** Merging a list into itself moves both cursors together and sends nothing. */
  lemma IdenticalListsStep(list: seq<Song>, o: nat, o': nat, j': nat, sent: seq<Notification>)
    requires o < |list| && StepOutcome(list, list, o, o, o', j', sent)
    ensures o' == j' && sent == []
  {
    CompareBySubtractionReflexive(list[o]);
  }

  /**
   * While the tail loop runs, the shown list is the new list followed by the old list's
   * songs from `o` up to `k`. Its last song compares equal to the new list's last once
   * none of those is left, and greater while any is left when the merge was safe.
   */
  lemma TrailingComparison(list: seq<Song>, before: seq<Song>, newItems: seq<Song>, o: nat, k: nat)
    requires newItems != [] && o <= k <= |before| && list == newItems + before[o..k]
    ensures list != []
    ensures o == k ==> CompareBySubtraction(list[|list| - 1], newItems[|newItems| - 1]) == 0
    ensures MergeSafe(before, newItems) && MergedBelowRest(before, newItems, o, |newItems|) && o < k ==>
      CompareBySubtraction(list[|list| - 1], newItems[|newItems| - 1]) > 0
  {
    var last := newItems[|newItems| - 1];
    if o == k {
      assert list == newItems;
      CompareBySubtractionReflexive(last);
    } else if MergeSafe(before, newItems) && MergedBelowRest(before, newItems, o, |newItems|) {
      assert list[|list| - 1] == before[k - 1];
      assert IsLong(before[k - 1].id - last.id);
      if o < k - 1 {
        assert before[o].id < before[k - 1].id;
      }
    }
  }

  class SongsAdapter {
    /** The songs shown, in display order. */
    var items: seq<Song>
    /** Every notification sent to the view so far. */
    ghost var notifications: seq<Notification>

    /** A view that followed every notification from the empty start shows exactly `items`. */
    ghost predicate Valid()
      reads this
    {
      Replay([], notifications) == Some(items)
    }

    constructor ()
      ensures Valid() && items == [] && notifications == []
    {
      items := [];
      notifications := [];
    }

    /** getItemCount: the number of songs shown, which is the size of the list a view that followed every notification holds. */
    function ItemCount(): (n: nat)
      requires Valid()
      reads this
      ensures Replay([], notifications).Some? && n == |Replay([], notifications).value|
    {
      |items|
    }

    // The four list mutations updateItems performs, each followed by its notification;
    // a view that followed every notification so far still shows the adapter's list.

    /** Add `x` at the end of the list and notify an insertion at its position. */
    method AppendItem(x: Song) returns (ghost n: Notification)
      requires Valid()
      modifies this
      ensures Valid()
      ensures n == ItemInserted(|old(items)|, x)
      ensures items == old(items) + [x]
      ensures notifications == old(notifications) + [n]
    {
      n := ItemInserted(|items|, x);
      ReplaySnoc([], notifications, n);
      assert items[..|items|] + [x] + items[|items|..] == items + [x];
      items := items + [x];
      notifications := notifications + [n];
    }

    /** Add `x` at position `p` and notify an insertion there. */
    method InsertItem(p: nat, x: Song) returns (ghost n: Notification)
      requires Valid() && p <= |items|
      modifies this
      ensures Valid()
      ensures n == ItemInserted(p, x)
      ensures items == old(items)[..p] + [x] + old(items)[p..]
      ensures notifications == old(notifications) + [n]
    {
      n := ItemInserted(p, x);
      ReplaySnoc([], notifications, n);
      items := items[..p] + [x] + items[p..];
      notifications := notifications + [n];
    }

    /** Remove the song at position `p` and notify a removal there. */
    method RemoveItem(p: nat) returns (ghost n: Notification)
      requires Valid() && p < |items|
      modifies this
      ensures Valid()
      ensures n == ItemRemoved(p)
      ensures items == old(items)[..p] + old(items)[p + 1..]
      ensures notifications == old(notifications) + [n]
    {
      n := ItemRemoved(p);
      ReplaySnoc([], notifications, n);
      items := items[..p] + items[p + 1..];
      notifications := notifications + [n];
    }

    /** Replace the song at position `p` by `x` and notify a change there. */
    method ChangeItem(p: nat, x: Song) returns (ghost n: Notification)
      requires Valid() && p < |items|
      modifies this
      ensures Valid()
      ensures n == ItemChanged(p, x)
      ensures items == old(items)[p := x]
      ensures notifications == old(notifications) + [n]
    {
      n := ItemChanged(p, x);
      ReplaySnoc([], notifications, n);
      items := items[p := x];
      notifications := notifications + [n];
    }

    /**
     * updateItems: merges `newItems` into the shown list in place and notifies the view
     * after each mutation. The notifications sent take a view of the old list to the new
     * one; the new list always ends up as a prefix of the shown list, and under MergeSafe
     * the shown list becomes exactly the new list.
     */
    method UpdateItems(newItems: seq<Song>) returns (ghost emitted: seq<Notification>)
      requires Valid()
      modifies this
      ensures Valid()
      ensures notifications == old(notifications) + emitted
      ensures Replay(old(items), emitted) == Some(items)
      ensures |newItems| <= |items| && items[..|newItems|] == newItems
      ensures MergeSafe(old(items), newItems) ==> items == newItems
      ensures old(items) == [] ==> items == newItems
      ensures newItems == [] ==> items == []
      ensures old(items) == [] ==>
        |emitted| == |newItems| && forall k :: 0 <= k < |newItems| ==> emitted[k] == ItemInserted(k, newItems[k])
      ensures old(items) != [] && newItems == [] ==>
        |emitted| == |old(items)| && forall k :: 0 <= k < |emitted| ==> emitted[k] == ItemRemoved(|old(items)| - 1 - k)
      ensures old(items) == newItems ==> emitted == [] && items == old(items)
    {
      if |items| == 0 {
        emitted := AddAll(newItems);
      } else if |newItems| == 0 {
        emitted := RemoveAll();
      } else {
        emitted := MergeLists(newItems);
      }
      ReplayConcat([], old(notifications), emitted);
    }

    /** The first case of updateItems, nothing shown yet: every new song is appended in order. */
    method AddAll(newItems: seq<Song>) returns (ghost emitted: seq<Notification>)
      requires Valid() && items == []
      modifies this
      ensures Valid()
      ensures items == newItems
      ensures notifications == old(notifications) + emitted
      ensures |emitted| == |newItems| && forall k :: 0 <= k < |newItems| ==> emitted[k] == ItemInserted(k, newItems[k])
    {
      emitted := [];
      var i := 0;
      while i < |newItems|
        invariant Valid()
        invariant 0 <= i <= |newItems|
        invariant items == newItems[..i]
        invariant |emitted| == i && forall k :: 0 <= k < i ==> emitted[k] == ItemInserted(k, newItems[k])
        invariant notifications == old(notifications) + emitted
      {
        ghost var n := AppendItem(newItems[i]);
        LogAppend(old(notifications), emitted, [n]);
        assert newItems[..i + 1] == newItems[..i] + [newItems[i]];
        emitted := emitted + [n];
        i := i + 1;
      }
      assert newItems[..i] == newItems;
    }

    /** The second case of updateItems, an empty new list: every song is removed, the last first. */
    method RemoveAll() returns (ghost emitted: seq<Notification>)
      requires Valid()
      modifies this
      ensures Valid()
      ensures items == []
      ensures notifications == old(notifications) + emitted
      ensures |emitted| == |old(items)| && forall k :: 0 <= k < |emitted| ==> emitted[k] == ItemRemoved(|old(items)| - 1 - k)
    {
      ghost var before := items;
      emitted := [];
      var i := |items| - 1;
      while i >= 0
        invariant Valid()
        invariant -1 <= i < |before|
        invariant items == before[..i + 1]
        invariant |emitted| == |before| - 1 - i
        invariant forall k :: 0 <= k < |emitted| ==> emitted[k] == ItemRemoved(|before| - 1 - k)
        invariant notifications == old(notifications) + emitted
      {
        assert before[..i + 1][..i] + before[..i + 1][i + 1..] == before[..i];
        ghost var n := RemoveItem(i);
        LogAppend(old(notifications), emitted, [n]);
        emitted := emitted + [n];
        i := i - 1;
      }
    }

    /**
     * One pass of the merge loop of updateItems. Both cursors stand at `newListIdx`;
     * the shown list is the merged part of the new list followed by what is left of
     * the old list `before` from `oldIdx` on. Comparing the shown song with the new
     * list's song decides whether the shown song is removed, refreshed or preceded by
     * an insertion; at most one notification is sent.
     */
    method MergeStep(newItems: seq<Song>, newListIdx: nat, adapterListIdx: nat, ghost before: seq<Song>, ghost oldIdx: nat)
      returns (nextNewIdx: nat, nextAdapterIdx: nat, ghost nextOldIdx: nat, ghost sent: seq<Notification>)
      requires Valid()
      requires adapterListIdx == newListIdx < |newItems| && oldIdx < |before|
      requires items == newItems[..newListIdx] + before[oldIdx..]
      modifies this
      ensures Valid()
      ensures nextAdapterIdx == nextNewIdx <= |newItems| && nextOldIdx <= |before|
      ensures items == newItems[..nextNewIdx] + before[nextOldIdx..]
      ensures notifications == old(notifications) + sent
      ensures StepOutcome(before, newItems, oldIdx, newListIdx, nextOldIdx, nextNewIdx, sent)
    {
      assert items[adapterListIdx] == before[oldIdx];
      var c := CompareBySubtraction(items[adapterListIdx], newItems[newListIdx]);
      if c < 0 {
        sent := RemoveStale(newItems, adapterListIdx, before, oldIdx);
        nextNewIdx, nextAdapterIdx, nextOldIdx := newListIdx, adapterListIdx, oldIdx + 1;
      } else if c == 0 {
        sent := Refresh(newItems, adapterListIdx, before, oldIdx);
        nextNewIdx, nextAdapterIdx, nextOldIdx := newListIdx + 1, adapterListIdx + 1, oldIdx + 1;
      } else {
        sent := InsertMissing(newItems, adapterListIdx, before, oldIdx);
        nextNewIdx, nextAdapterIdx, nextOldIdx := newListIdx + 1, adapterListIdx + 1, oldIdx;
      }
    }

    // The three outcomes of one merge pass, with both cursors at `j`.

    /** The shown song's id is below the new list's: it is not in the new list, so it goes. */
    method RemoveStale(newItems: seq<Song>, j: nat, ghost before: seq<Song>, ghost oldIdx: nat)
      returns (ghost sent: seq<Notification>)
      requires Valid() && j <= |newItems| && oldIdx < |before|
      requires items == newItems[..j] + before[oldIdx..]
      modifies this
      ensures Valid()
      ensures items == newItems[..j] + before[oldIdx + 1..]
      ensures sent == [ItemRemoved(j)] && notifications == old(notifications) + sent
    {
      RemoveAtCursor(items, newItems, before, j, oldIdx);
      ghost var n := RemoveItem(j);
      sent := [n];
    }

    /** Same id in both lists: the shown song is replaced when any other field differs. */
    method Refresh(newItems: seq<Song>, j: nat, ghost before: seq<Song>, ghost oldIdx: nat)
      returns (ghost sent: seq<Notification>)
      requires Valid() && j < |newItems| && oldIdx < |before|
      requires items == newItems[..j] + before[oldIdx..]
      modifies this
      ensures Valid()
      ensures items == newItems[..j + 1] + before[oldIdx + 1..]
      ensures sent == (if before[oldIdx] == newItems[j] then [] else [ItemChanged(j, newItems[j])])
      ensures notifications == old(notifications) + sent
    {
      if items[j] != newItems[j] {
        ChangeAtCursor(items, newItems, before, j, oldIdx);
        ghost var n := ChangeItem(j, newItems[j]);
        sent := [n];
      } else {
        KeepAtCursor(items, newItems, before, j, oldIdx);
        sent := [];
      }
    }

    /** The new list's song has the smaller id: it is not shown yet, so it is inserted here. */
    method InsertMissing(newItems: seq<Song>, j: nat, ghost before: seq<Song>, ghost oldIdx: nat)
      returns (ghost sent: seq<Notification>)
      requires Valid() && j < |newItems| && oldIdx <= |before|
      requires items == newItems[..j] + before[oldIdx..]
      modifies this
      ensures Valid()
      ensures items == newItems[..j + 1] + before[oldIdx..]
      ensures sent == [ItemInserted(j, newItems[j])] && notifications == old(notifications) + sent
    {
      InsertAtCursor(items, newItems, before, j, oldIdx);
      ghost var n := InsertItem(j, newItems[j]);
      sent := [n];
    }

    /**
     * The merge loop of updateItems: walks both lists by id until one of them is used
     * up. `oldIdx` counts the songs of the old list the walk has consumed.
     */
    method MergeHead(newItems: seq<Song>)
      returns (newListIdx: nat, adapterListIdx: nat, ghost oldIdx: nat, ghost emitted: seq<Notification>)
      requires Valid()
      modifies this
      ensures Valid()
      ensures newListIdx <= |newItems| && adapterListIdx == newListIdx && oldIdx <= |old(items)|
      ensures newListIdx == |newItems| || oldIdx == |old(items)|
      ensures items == newItems[..newListIdx] + old(items)[oldIdx..]
      ensures notifications == old(notifications) + emitted
      ensures MergeSafe(old(items), newItems) ==> MergedBelowRest(old(items), newItems, oldIdx, newListIdx)
      ensures old(items) == newItems ==> oldIdx == newListIdx == |newItems| && emitted == []
    {
      ghost var before := items;
      emitted := [];
      newListIdx, adapterListIdx, oldIdx := 0, 0, 0;
      assert items == newItems[..0] + before[0..];
      while newListIdx < |newItems| && adapterListIdx < |items|
        invariant Valid()
        invariant newListIdx <= |newItems| && adapterListIdx == newListIdx && oldIdx <= |before|
        invariant items == newItems[..newListIdx] + before[oldIdx..]
        invariant notifications == old(notifications) + emitted
        invariant MergeSafe(before, newItems) ==> MergedBelowRest(before, newItems, oldIdx, newListIdx)
        invariant before == newItems ==> oldIdx == newListIdx && emitted == []
        decreases |before| - oldIdx + |newItems| - newListIdx
      {
        ghost var o, j := oldIdx, newListIdx;
        ghost var sent;
        newListIdx, adapterListIdx, oldIdx, sent := MergeStep(newItems, newListIdx, adapterListIdx, before, oldIdx);
        if MergeSafe(before, newItems) {
          MergedBelowRestStep(before, newItems, o, j, oldIdx, newListIdx, sent);
        }
        if before == newItems {
          IdenticalListsStep(before, o, oldIdx, newListIdx, sent);
        }
        LogAppend(old(notifications), emitted, sent);
        emitted := emitted + sent;
      }
    }

    /**
     * The third case of updateItems, both lists non-empty: the merge loop, then either
     * the rest of the new list is appended or songs are removed from the end while their
     * id compares greater than the new list's last.
     */
    method MergeLists(newItems: seq<Song>) returns (ghost emitted: seq<Notification>)
      requires Valid() && items != [] && newItems != []
      modifies this
      ensures Valid()
      ensures notifications == old(notifications) + emitted
      ensures |newItems| <= |items| && items[..|newItems|] == newItems
      ensures MergeSafe(old(items), newItems) ==> items == newItems
      ensures old(items) == newItems ==> emitted == [] && items == old(items)
    {
      ghost var before := items;
      var newListIdx, adapterListIdx;
      ghost var oldIdx;
      newListIdx, adapterListIdx, oldIdx, emitted := MergeHead(newItems);
      if newListIdx < |newItems| {
        assert before[oldIdx..] == [];
        ghost var sent := AppendRest(newItems, newListIdx);
        LogAppend(old(notifications), emitted, sent);
        emitted := emitted + sent;
      } else if adapterListIdx < |items| {
        assert newItems[..newListIdx] == newItems;
        ghost var sent := RemoveTrailing(newItems, before, oldIdx);
        LogAppend(old(notifications), emitted, sent);
        emitted := emitted + sent;
      } else {
        assert before[oldIdx..] == [];
      }
    }

    /** The first tail loop of updateItems: appends the new list from `start` on, one song at a time. */
    method AppendRest(newItems: seq<Song>, start: nat) returns (ghost sent: seq<Notification>)
      requires Valid() && start <= |newItems| && items == newItems[..start]
      modifies this
      ensures Valid()
      ensures items == newItems
      ensures notifications == old(notifications) + sent
      ensures |sent| == |newItems| - start
      ensures forall k :: 0 <= k < |sent| ==> sent[k] == ItemInserted(start + k, newItems[start + k])
    {
      var newListIdx := start;
      sent := [];
      while newListIdx < |newItems|
        invariant Valid()
        invariant start <= newListIdx <= |newItems| && items == newItems[..newListIdx]
        invariant notifications == old(notifications) + sent
        invariant |sent| == newListIdx - start
        invariant forall k :: 0 <= k < |sent| ==> sent[k] == ItemInserted(start + k, newItems[start + k])
      {
        ghost var n := AppendItem(newItems[newListIdx]);
        LogAppend(old(notifications), sent, [n]);
        assert newItems[..newListIdx + 1] == newItems[..newListIdx] + [newItems[newListIdx]];
        newListIdx := newListIdx + 1;
        sent := sent + [n];
      }
      assert newItems[..newListIdx] == newItems;
    }

    /**
     * The second tail loop of updateItems: removes the last song while its id compares
     * greater than the new list's last. The shown list is the new list followed by the
     * old list's songs from `oldIdx` on; under MergeSafe all of those go.
     */
    method RemoveTrailing(newItems: seq<Song>, ghost before: seq<Song>, ghost oldIdx: nat)
      returns (ghost sent: seq<Notification>)
      requires Valid() && newItems != [] && oldIdx <= |before|
      requires items == newItems + before[oldIdx..]
      modifies this
      ensures Valid()
      ensures notifications == old(notifications) + sent
      ensures |newItems| <= |items| && items[..|newItems|] == newItems
      ensures MergeSafe(before, newItems) && MergedBelowRest(before, newItems, oldIdx, |newItems|) ==>
        items == newItems
      ensures |sent| == |old(items)| - |items|
      ensures forall k :: 0 <= k < |sent| ==> sent[k] == ItemRemoved(|old(items)| - 1 - k)
    {
      sent := [];
      // how many songs of the old list are still shown
      ghost var k := |before|;
      assert before[oldIdx..k] == before[oldIdx..];
      var last := |newItems| - 1;
      while CompareBySubtraction(items[|items| - 1], newItems[last]) > 0
        invariant Valid()
        invariant oldIdx <= k <= |before|
        invariant items == newItems + before[oldIdx..k]
        invariant notifications == old(notifications) + sent
        invariant |sent| == |old(items)| - |items|
        invariant forall m :: 0 <= m < |sent| ==> sent[m] == ItemRemoved(|old(items)| - 1 - m)
        decreases |items|
      {
        TrailingComparison(items, before, newItems, oldIdx, k);
        var removedItemPosition := |items| - 1;
        DropLast(items, newItems, before, oldIdx, k, removedItemPosition);
        ghost var n := RemoveItem(removedItemPosition);
        LogAppend(old(notifications), sent, [n]);
        sent := sent + [n];
        k := k - 1;
      }
      TrailingComparison(items, before, newItems, oldIdx, k);
      assert items[..|newItems|] == newItems;
      if MergeSafe(before, newItems) && MergedBelowRest(before, newItems, oldIdx, |newItems|) {
        assert k == oldIdx;
        assert before[oldIdx..k] == [];
      }
    }
  }
}
