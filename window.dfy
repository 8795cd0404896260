/**
 * The sliding window of a live playlist (lib/m3uzi.rb:315-319 and
 * :363-369): after a file is added, the oldest valid files are dropped
 * until the total duration of the valid files fits the window.
 */
module Window {
  import opened Wrappers
  import opened Items

  /** What a file adds to `total_duration`: its duration when that is positive, nothing otherwise. */
  function Contribution(f: MediaFile): (d: real)
    ensures d >= 0.0
    ensures d > 0.0 <==> f.duration.Some? && f.duration.value.ToReal() > 0.0
    ensures d > 0.0 ==> d == f.duration.value.ToReal()
  {
    if f.duration.Some? && f.duration.value.ToReal() > 0.0 then f.duration.value.ToReal() else 0.0
  }

  /** Every file has a duration; for a file without one, `nil > 0` raises NoMethodError. */
  predicate AllTimed(files: seq<MediaFile>) {
    forall k :: 0 <= k < |files| ==> files[k].duration.Some?
  }

  /** The sum of the positive durations of `files`. */
  function SumDurations(files: seq<MediaFile>): (r: real)
    ensures r >= 0.0
    ensures r > 0.0 ==> files != []
  {
    if files == [] then 0.0 else Contribution(files[0]) + SumDurations(files[1..])
  }

  /**
   * `total_duration` computed afresh: the sum over the valid files, or
   * `None` when the fold raises on a valid file without a duration.
   */
  function TotalDuration(valid: Item -> bool, items: seq<Item>): (r: Option<real>)
    ensures r.None? <==> exists k :: 0 <= k < |ValidFiles(valid, items)| && ValidFiles(valid, items)[k].duration.None?
    ensures r.Some? ==> r.value >= 0.0
  {
    var files := ValidFiles(valid, items);
    if AllTimed(files) then Some(SumDurations(files)) else None
  }

  /**
   * The list after `detect` finds the first valid file and `delete`
   * removes it. (Each file is its own object, so `delete` removes that
   * one entry.) With no valid file, `delete(nil)` changes nothing.
   */
  function RemoveFirstValidFile(valid: Item -> bool, items: seq<Item>): (r: seq<Item>)
    ensures ValidFiles(valid, items) == [] ==> r == items
    ensures ValidFiles(valid, items) != [] ==> ValidFiles(valid, r) == ValidFiles(valid, items)[1..]
    ensures OtherItems(valid, r) == OtherItems(valid, items)
  {
    if items == [] then []
    else if IsValidFile(valid, items[0]) then items[1..]
    else
      var rest := RemoveFirstValidFile(valid, items[1..]);
      assert ([items[0]] + rest)[1..] == rest;
      [items[0]] + rest
  }

  /**
   * `delete` removes the file `detect` found at its own position: the
   * items before it and after it stay, in order.
   */
  lemma {:induction false} RemoveFirstValidFileAt(valid: Item -> bool, items: seq<Item>)
    ensures var j := FirstValidFile(valid, items);
      RemoveFirstValidFile(valid, items) == if j == |items| then items else items[..j] + items[j + 1..]
  {
    if items != [] && !IsValidFile(valid, items[0]) {
      RemoveFirstValidFileAt(valid, items[1..]);
      var j := FirstValidFile(valid, items);
      assert j == FirstValidFile(valid, items[1..]) + 1;
      SpliceAfterHead(items, j);
    }
  }

  /** Deleting index `j` of the tail, with the head put back, deletes index `j` of the whole. */
  lemma SpliceAfterHead<T>(items: seq<T>, j: nat)
    requires 1 <= j <= |items|
    ensures j < |items| ==> [items[0]] + (items[1..][..j - 1] + items[1..][j..]) == items[..j] + items[j + 1..]
    ensures j == |items| ==> [items[0]] + items[1..] == items
  {
    if j < |items| {
      assert items[1..][..j - 1] == items[1..j] && items[1..][j..] == items[j + 1..];
      assert [items[0]] + items[1..j] == items[..j];
    }
  }

  /** `detect`: the index of the first valid file, or the length when there is none. */
  function FirstValidFile(valid: Item -> bool, items: seq<Item>): (j: nat)
    ensures j <= |items|
    ensures j < |items| ==> IsValidFile(valid, items[j])
    ensures forall i :: 0 <= i < j ==> !IsValidFile(valid, items[i])
  {
    if items == [] || IsValidFile(valid, items[0]) then 0
    else
      var j := FirstValidFile(valid, items[1..]);
      assert forall i :: 1 <= i < j + 1 ==> items[i] == items[1..][i - 1];
      j + 1
  }

  /**
   * `items` with the first `k` valid files removed and every other item
   * kept in place.
   */
  function DropValidFiles(valid: Item -> bool, items: seq<Item>, k: nat): seq<Item> {
    if items == [] then []
    else if IsValidFile(valid, items[0]) && k > 0 then DropValidFiles(valid, items[1..], k - 1)
    else [items[0]] + DropValidFiles(valid, items[1..], k)
  }

  /** Dropping no valid file changes nothing. */
  lemma {:induction false} DropNoValidFiles(valid: Item -> bool, items: seq<Item>)
    ensures DropValidFiles(valid, items, 0) == items
  {
    if items != [] {
      DropNoValidFiles(valid, items[1..]);
    }
  }

  /** Removing the first valid file, then `k` more, drops `k + 1`. */
  lemma {:induction false} DropAfterRemove(valid: Item -> bool, items: seq<Item>, k: nat)
    requires ValidFiles(valid, items) != []
    ensures DropValidFiles(valid, RemoveFirstValidFile(valid, items), k) == DropValidFiles(valid, items, k + 1)
  {
    if !IsValidFile(valid, items[0]) {
      var rest := RemoveFirstValidFile(valid, items[1..]);
      assert ([items[0]] + rest)[1..] == rest;
      DropAfterRemove(valid, items[1..], k);
    }
  }

  /**
   * The eviction loop with the total recomputed on every test: the items
   * left and how many files were removed. A non-negative window is always
   * reached, since with no valid file left the total is 0.
   */
  function Evict(valid: Item -> bool, items: seq<Item>, window: real): (r: (seq<Item>, nat))
    requires window >= 0.0
    decreases |ValidFiles(valid, items)|
  {
    if SumDurations(ValidFiles(valid, items)) <= window then (items, 0)
    else
      var rest := Evict(valid, RemoveFirstValidFile(valid, items), window);
      (rest.0, rest.1 + 1)
  }

  /**
   * Eviction removes the `k` oldest valid files and nothing else, for the
   * least `k` that makes the remaining valid files fit the window.
   */
  lemma {:induction false} EvictKeepsShortestFittingSuffix(valid: Item -> bool, items: seq<Item>, window: real)
    requires window >= 0.0
    ensures var (r, k) := Evict(valid, items, window);
      var files := ValidFiles(valid, items);
      k <= |files| && ValidFiles(valid, r) == files[k..] &&
      OtherItems(valid, r) == OtherItems(valid, items) && r == DropValidFiles(valid, items, k) &&
      SumDurations(files[k..]) <= window &&
      forall j :: 0 <= j < k ==> SumDurations(files[j..]) > window
    decreases |ValidFiles(valid, items)|
  {
    EvictDropsOldest(valid, items, window);
    var files := ValidFiles(valid, items);
    if SumDurations(files) <= window {
      assert files[0..] == files;
    } else {
      var next := RemoveFirstValidFile(valid, items);
      EvictKeepsShortestFittingSuffix(valid, next, window);
      var (r, k) := Evict(valid, next, window);
      assert ValidFiles(valid, next) == files[1..];
      assert files[1..][k..] == files[k + 1..];
      forall j | 0 <= j < k + 1 ensures SumDurations(files[j..]) > window {
        if j == 0 {
          assert files[0..] == files;
        } else {
          assert files[1..][j - 1..] == files[j..];
        }
      }
    }
  }

  /** Eviction deletes the first `k` valid files where they stand and keeps every other item in order. */
  lemma {:induction false} EvictDropsOldest(valid: Item -> bool, items: seq<Item>, window: real)
    requires window >= 0.0
    ensures Evict(valid, items, window).0 == DropValidFiles(valid, items, Evict(valid, items, window).1)
    decreases |ValidFiles(valid, items)|
  {
    if SumDurations(ValidFiles(valid, items)) <= window {
      EvictNothingWhenFitting(valid, items, window);
      DropNoValidFiles(valid, items);
    } else {
      var next := EvictStep(valid, items, window);
      var k := Evict(valid, next, window).1;
      EvictDropsOldest(valid, next, window);
      DropAfterRemove(valid, items, k);
      assert Evict(valid, items, window).0 == DropValidFiles(valid, next, k);
    }
  }

  /** One turn of the loop: the first valid file goes and eviction goes on from there. */
  lemma EvictStep(valid: Item -> bool, items: seq<Item>, window: real) returns (next: seq<Item>)
    requires window >= 0.0 && SumDurations(ValidFiles(valid, items)) > window
    ensures ValidFiles(valid, items) != [] && next == RemoveFirstValidFile(valid, items)
    ensures |ValidFiles(valid, next)| < |ValidFiles(valid, items)|
    ensures Evict(valid, items, window).0 == Evict(valid, next, window).0
    ensures Evict(valid, items, window).1 == Evict(valid, next, window).1 + 1
  {
    next := RemoveFirstValidFile(valid, items);
  }

  /** After eviction the valid files fit the window, and the files removed are counted. */
  lemma EvictFitsWindow(valid: Item -> bool, items: seq<Item>, window: real)
    requires window >= 0.0
    ensures var (r, k) := Evict(valid, items, window);
      SumDurations(ValidFiles(valid, r)) <= window &&
      |ValidFiles(valid, r)| + k == |ValidFiles(valid, items)|
  {
    EvictKeepsShortestFittingSuffix(valid, items, window);
  }

  /** A playlist that already fits is left alone. */
  lemma EvictNothingWhenFitting(valid: Item -> bool, items: seq<Item>, window: real)
    requires window >= 0.0 && SumDurations(ValidFiles(valid, items)) <= window
    ensures Evict(valid, items, window) == (items, 0)
  {
  }

  /** Only valid files with a duration move the total: a removed file is no longer counted. */
  lemma RemovingFirstDropsItsContribution(valid: Item -> bool, items: seq<Item>)
    requires ValidFiles(valid, items) != []
    ensures SumDurations(ValidFiles(valid, RemoveFirstValidFile(valid, items))) ==
      SumDurations(ValidFiles(valid, items)) - Contribution(ValidFiles(valid, items)[0])
  {
  }

  /**
   * The outcome of `cleanup_sliding_window` as written, with
   * `@total_duration ||= …` (:316). The memo is filled the first time the
   * window is checked and nothing clears it. If the remembered total fits,
   * nothing is evicted, whatever the files added since. If it does not
   * fit, each turn of the loop removes a file but the total it tests never
   * changes, so the loop never ends.
   */
  datatype MemoOutcome = Settled(cache: Option<real>) | Spins | Raises

  function CleanupWithMemo(valid: Item -> bool, items: seq<Item>, cache: Option<real>,
                           window: Option<real>, live: bool): MemoOutcome
  {
    if window.None? || !live then Settled(cache)
    else
      var total := if cache.Some? then cache else TotalDuration(valid, items);
      if total.None? then Raises
      else if total.value > window.value then Spins
      else Settled(total)
  }

  /** A ten-second file with a Float duration and nothing else set. */
  function TenSecondFile(): Item {
    FileItem(MediaFile(None, Some(FloatDur(10.0)), None, Unset, None, None, None))
  }

  /**
   * With a 15 second window, two ten-second files are kept: the first
   * addition remembers 10.0 and the second reuses it, although the valid
   * files now total 20 seconds. Recomputing the total evicts the older file.
   */
  lemma MemoLetsWindowOverflow()
    ensures var valid := (it: Item) => true;
      var one := [TenSecondFile()];
      var two := one + [TenSecondFile()];
      CleanupWithMemo(valid, one, None, Some(15.0), true) == Settled(Some(10.0)) &&
      CleanupWithMemo(valid, two, Some(10.0), Some(15.0), true) == Settled(Some(10.0)) &&
      SumDurations(ValidFiles(valid, two)) == 20.0 &&
      Evict(valid, two, 15.0) == (one, 1)
  {
    var valid := (it: Item) => true;
    var one := [TenSecondFile()];
    var two := one + [TenSecondFile()];
    assert two[1..] == one;
    assert ValidFiles(valid, one) == [TenSecondFile().file];
    assert ValidFiles(valid, two) == [TenSecondFile().file, TenSecondFile().file];
    assert RemoveFirstValidFile(valid, two) == one;
    assert Evict(valid, one, 15.0) == (one, 0);
  }

  /**
   * With a 5 second window, adding a ten-second file starts a loop that
   * never ends, where the recomputed total empties the playlist in one step.
   */
  lemma MemoSpinsForever()
    ensures var valid := (it: Item) => true;
      CleanupWithMemo(valid, [TenSecondFile()], None, Some(5.0), true) == Spins &&
      forall c :: c > 5.0 ==> CleanupWithMemo(valid, [], Some(c), Some(5.0), true) == Spins
    ensures Evict((it: Item) => true, [TenSecondFile()], 5.0) == ([], 1)
  {
    var valid := (it: Item) => true;
    assert ValidFiles(valid, [TenSecondFile()]) == [TenSecondFile().file];
    assert RemoveFirstValidFile(valid, [TenSecondFile()]) == [];
  }
}
