/**
 * Pure specification of the page registry: the three parallel vectors of page
 * identifiers, background URLs and "background pushed" flags, and the board
 * calls that navigating to a page issues.
 */
module PageRegistry {
  import opened BoardEvents

  /** The identifier of the page every fresh deck starts with. */
  const DefaultPage: string := "#DEFAULT"

  /** `v.emplace(v.begin() + k, x)`: the vector with `x` inserted before position `k`. */
  function InsertAt<T>(s: seq<T>, k: nat, x: T): (r: seq<T>)
    requires k <= |s|
    ensures |r| == |s| + 1
    ensures r[k] == x
    ensures forall j :: 0 <= j < k ==> r[j] == s[j]
    ensures forall j :: k < j < |r| ==> r[j] == s[j - 1]
  {
    s[..k] + [x] + s[k..]
  }

  /** `v.erase(v.begin() + k)`: the vector without its entry at position `k`. */
  function RemoveAt<T>(s: seq<T>, k: nat): (r: seq<T>)
    requires k < |s|
    ensures |r| == |s| - 1
    ensures forall j :: 0 <= j < k ==> r[j] == s[j]
    ensures forall j :: k <= j < |r| ==> r[j] == s[j + 1]
  {
    s[..k] + s[k + 1..]
  }

  /** Removing what was just inserted gives back the original vector. */
  lemma RemoveInserted<T>(s: seq<T>, k: nat, x: T)
    requires k <= |s|
    ensures RemoveAt(InsertAt(s, k, x), k) == s
  {
  }

  /**
   * The cursor `deletePage` moves to after erasing the entry at cursor `c` of an
   * `n`-entry registry: it keeps `c` unless that is now past the end.
   */
  function CursorAfterDelete(c: nat, n: nat): (t: nat)
    requires 1 < n && c < n
    ensures t == if c <= n - 2 then c else n - 2
    ensures t < n - 1
  {
    var t := c;
    if t >= n - 1 then t - 1 else t
  }

  /**
   * Inserting a page after cursor `c` and then deleting it (the cursor sits on the
   * inserted page) restores the registry; the cursor comes back to `c` only when
   * `c` was the last page, and otherwise stays on `c + 1`.
   */
  lemma InsertThenDelete<T>(s: seq<T>, c: nat, x: T)
    requires c < |s|
    ensures RemoveAt(InsertAt(s, c + 1, x), c + 1) == s
    ensures CursorAfterDelete(c + 1, |s| + 1) == if c == |s| - 1 then c else c + 1
  {
  }

  /** Whether page `i` needs its background pushed: a valid index, flag unset, URL non-empty. */
  predicate NeedsBackground(urls: seq<string>, sent: seq<bool>, i: int): (r: bool)
    requires |urls| == |sent|
    ensures r ==> 0 <= i < |urls|
  {
    0 <= i < |urls| && !sent[i] && urls[i] != []
  }

  /**
   * The indices `i` in `[lo, hi)` that `gotoPage`'s prefetch loop pushes a background
   * for, in increasing order: valid indices whose flag is unset and whose URL is
   * non-empty.
   */
  function PrefetchIndices(urls: seq<string>, sent: seq<bool>, lo: int, hi: int): (ix: seq<int>)
    requires |urls| == |sent|
    decreases hi - lo
    ensures forall k :: 0 <= k < |ix| ==> lo <= ix[k] < hi && 0 <= ix[k] < |urls|
  {
    if hi <= lo then []
    else
      var rest := PrefetchIndices(urls, sent, lo, hi - 1);
      if NeedsBackground(urls, sent, hi - 1) then rest + [hi - 1] else rest
  }

  /**
   * The prefetch indices are exactly the pages of `[lo, hi)` that need a
   * background, each once, in increasing order.
   */
  lemma {:induction false} PrefetchIndicesExact(urls: seq<string>, sent: seq<bool>, lo: int, hi: int)
    requires |urls| == |sent|
    decreases hi - lo
    ensures var ix := PrefetchIndices(urls, sent, lo, hi);
      && (forall i :: i in ix <==> lo <= i < hi && NeedsBackground(urls, sent, i))
      && (forall a, b :: 0 <= a < b < |ix| ==> ix[a] < ix[b])
  {
    if hi > lo {
      PrefetchIndicesExact(urls, sent, lo, hi - 1);
      var rest := PrefetchIndices(urls, sent, lo, hi - 1);
      if NeedsBackground(urls, sent, hi - 1) {
        var ix := rest + [hi - 1];
        assert forall i :: i in ix <==> i in rest || i == hi - 1;
        forall a, b | 0 <= a < b < |ix| ensures ix[a] < ix[b] {
          if b < |rest| {
            assert ix[a] == rest[a] && ix[b] == rest[b];
          } else {
            assert ix[a] == rest[a] < hi - 1;
          }
        }
      }
    }
  }

  /** The `useBackground` calls for the pages at indices `ix`, in that order. */
  function BackgroundCalls(ids: seq<string>, urls: seq<string>, ix: seq<int>): (calls: seq<BoardCall>)
    requires |ids| == |urls|
    requires forall k :: 0 <= k < |ix| ==> 0 <= ix[k] < |ids|
    ensures |calls| == |ix|
  {
    if ix == [] then []
    else
      var last := ix[|ix| - 1];
      BackgroundCalls(ids, urls, ix[..|ix| - 1]) + [UseBackground(urls[last], ids[last])]
  }

  /** Call `k` sets the background of page `ix[k]`. */
  lemma {:induction false} BackgroundCallsAt(ids: seq<string>, urls: seq<string>, ix: seq<int>)
    requires |ids| == |urls|
    requires forall k :: 0 <= k < |ix| ==> 0 <= ix[k] < |ids|
    ensures forall k :: 0 <= k < |ix| ==> BackgroundCalls(ids, urls, ix)[k] == UseBackground(urls[ix[k]], ids[ix[k]])
    decreases |ix|
  {
    if ix != [] {
      BackgroundCallsAt(ids, urls, ix[..|ix| - 1]);
    }
  }

  /** The `useBackground` calls the prefetch loop makes for the indices of `[lo, hi)`. */
  function Prefetch(ids: seq<string>, urls: seq<string>, sent: seq<bool>, lo: int, hi: int): (r: seq<BoardCall>)
    requires |ids| == |urls| == |sent|
    decreases hi - lo
    ensures |r| <= if hi <= lo then 0 else hi - lo
  {
    if hi <= lo then []
    else
      Prefetch(ids, urls, sent, lo, hi - 1)
        + if NeedsBackground(urls, sent, hi - 1) then [UseBackground(urls[hi - 1], ids[hi - 1])] else []
  }

  /** The prefetch loop's calls are the background calls of the prefetch indices, in order. */
  lemma {:induction false} PrefetchByIndices(ids: seq<string>, urls: seq<string>, sent: seq<bool>, lo: int, hi: int)
    requires |ids| == |urls| == |sent|
    decreases hi - lo
    ensures Prefetch(ids, urls, sent, lo, hi) == BackgroundCalls(ids, urls, PrefetchIndices(urls, sent, lo, hi))
  {
    if hi > lo {
      PrefetchByIndices(ids, urls, sent, lo, hi - 1);
      var ix := PrefetchIndices(urls, sent, lo, hi - 1);
      if NeedsBackground(urls, sent, hi - 1) {
        assert (ix + [hi - 1])[..|ix|] == ix;
      }
    }
  }

  /**
   * The board calls `gotoPage(idx)` issues for a valid `idx`: the background of
   * each page in the window `[idx - 2, idx + 1]` that still needs one, then the
   * switch to page `idx`.
   */
  function GotoCalls(ids: seq<string>, urls: seq<string>, sent: seq<bool>, idx: nat): (r: seq<BoardCall>)
    requires |ids| == |urls| == |sent| && idx < |ids|
    ensures 1 <= |r| <= 5 && r[|r| - 1] == PageOperate(ids[idx], [])
  {
    Prefetch(ids, urls, sent, idx as int - 2, idx as int + 2) + [PageOperate(ids[idx], [])]
  }

  /**
   * What `gotoPage(idx)` sends: first one `useBackground` for each prefetch index
   * of the window `[idx - 2, idx + 2)`, in the order of the indices (at most four
   * of them), and last exactly one `pageOperate` to page `idx` with nothing deleted.
   */
  lemma {:induction false} GotoCallsShape(ids: seq<string>, urls: seq<string>, sent: seq<bool>, idx: nat)
    requires |ids| == |urls| == |sent| && idx < |ids|
    ensures var ix := PrefetchIndices(urls, sent, idx as int - 2, idx as int + 2);
      var calls := GotoCalls(ids, urls, sent, idx);
      && |ix| <= 4
      && |calls| == |ix| + 1
      && calls[|ix|] == PageOperate(ids[idx], [])
      && forall k :: 0 <= k < |ix| ==> calls[k] == UseBackground(urls[ix[k]], ids[ix[k]])
  {
    var lo, hi := idx as int - 2, idx as int + 2;
    var ix := PrefetchIndices(urls, sent, lo, hi);
    var bg := BackgroundCalls(ids, urls, ix);
    PrefetchByIndices(ids, urls, sent, lo, hi);
    assert GotoCalls(ids, urls, sent, idx) == bg + [PageOperate(ids[idx], [])];
    BackgroundCallsAt(ids, urls, ix);
    PrefetchIndicesExact(urls, sent, lo, hi);
    WindowSize(ix, lo, hi);
  }

  /** A strictly increasing sequence of integers inside `[lo, hi)` has at most `hi - lo` entries. */
  lemma {:induction false} WindowSize(ix: seq<int>, lo: int, hi: int)
    requires forall k :: 0 <= k < |ix| ==> lo <= ix[k] < hi
    requires forall a, b :: 0 <= a < b < |ix| ==> ix[a] < ix[b]
    ensures |ix| <= if hi <= lo then 0 else hi - lo
    decreases |ix|
  {
    if ix != [] {
      var last := ix[|ix| - 1];
      WindowSize(ix[..|ix| - 1], lo, last);
    }
  }
}
