/**
 * The song value object shared by both reconcilers, and the orderings on it.
 *
 * A song is an immutable record; two songs are equal when all four fields are.
 * Both reconcilers rely on their inputs being sorted ascending by id.
 */
module Songs {

  datatype Option<+T> = None | Some(value: T)

  /** One catalogue entry: author, name, a remote-assigned id and a version. */
  datatype Song = Song(author: string, name: string, id: int, version: int)

  /** Ids are Java `long`s: 64-bit two's complement. */
  const MIN_LONG: int := -0x8000_0000_0000_0000
  const MAX_LONG: int := 0x7fff_ffff_ffff_ffff

  predicate IsLong(x: int) {
    MIN_LONG <= x <= MAX_LONG
  }

  /** The set of ids occurring in `s`. */
  function Ids(s: seq<Song>): set<int> {
    set k | 0 <= k < |s| :: s[k].id
  }

  /** Ascending by id; equal ids may repeat (what a stable sort by id yields). */
  predicate SortedById(s: seq<Song>) {
    forall p, q :: 0 <= p < q < |s| ==> s[p].id <= s[q].id
  }

  /** Strictly ascending by id: sorted and at most one song per id. */
  predicate StrictlySortedById(s: seq<Song>) {
    forall p, q :: 0 <= p < q < |s| ==> s[p].id < s[q].id
  }
}
