/**
 * The sheet that configures a practice session for one board: the timer
 * presets and custom seconds, the playback order, how many images to use,
 * and the selection of the first images by `sortOrder`.
 */
module Setup {
  import opened Wrappers
  import opened Models
  import Formatting
  import SwiftNumbers

  // ---- Selection ---------------------------------------------------------------

  /** Ascending by `sortOrder`. */
  predicate SortedByOrder(s: seq<ReferenceImage>)
  {
    forall i, j :: 0 <= i < j < |s| ==> s[i].sortOrder <= s[j].sortOrder
  }

  /** Inserts `x` before the first element whose `sortOrder` is not below its own. */
  function Insert(x: ReferenceImage, s: seq<ReferenceImage>): (r: seq<ReferenceImage>)
    ensures multiset(r) == multiset(s) + multiset{x}
    ensures |r| == |s| + 1
  {
    if s == [] || x.sortOrder <= s[0].sortOrder then [x] + s
    else
      assert s == [s[0]] + s[1..];
      [s[0]] + Insert(x, s[1..])
  }

  lemma {:induction false} InsertSorted(x: ReferenceImage, s: seq<ReferenceImage>)
    requires SortedByOrder(s)
    ensures SortedByOrder(Insert(x, s))
    ensures Insert(x, s)[0] == x || Insert(x, s)[0] == s[0]
  {
    if s == [] || x.sortOrder <= s[0].sortOrder {
    } else {
      InsertSorted(x, s[1..]);
    }
  }

  /** `images.sorted { $0.sortOrder < $1.sortOrder }`, written as a stable insertion sort. */
  function SortBySortOrder(s: seq<ReferenceImage>): (r: seq<ReferenceImage>)
    ensures |r| == |s|
  {
    if s == [] then [] else Insert(s[0], SortBySortOrder(s[1..]))
  }

  /** The sort returns the same images, in ascending `sortOrder`. */
  lemma {:induction false} SortSpec(s: seq<ReferenceImage>)
    ensures SortedByOrder(SortBySortOrder(s))
    ensures multiset(SortBySortOrder(s)) == multiset(s)
  {
    if s != [] {
      SortSpec(s[1..]);
      InsertSorted(s[0], SortBySortOrder(s[1..]));
      assert s == [s[0]] + s[1..];
    }
  }

  /** How many images the session uses: all of them, or the stepper's count capped at the board's size. */
  function SelectedCount(available: nat, useAllImages: bool, imageCount: nat): (count: nat)
    ensures count <= available
    ensures useAllImages ==> count == available
    ensures !useAllImages ==> count <= imageCount && (count == imageCount || count == available)
  {
    if useAllImages then available
    else if imageCount < available then imageCount else available
  }

  /** Each image as the `(id, filename)` pair a session carries. */
  function References(s: seq<ReferenceImage>): (r: seq<ImageReference>)
    ensures |r| == |s|
    ensures forall i :: 0 <= i < |s| ==> r[i] == ImageReference(s[i].id, s[i].filename)
  {
    if s == [] then [] else [ImageReference(s[0].id, s[0].filename)] + References(s[1..])
  }

  /** The first `count` images in `sortOrder` order, as references. */
  function Selection(images: seq<ReferenceImage>, useAllImages: bool, imageCount: nat): seq<ImageReference>
  {
    var count := SelectedCount(|images|, useAllImages, imageCount);
    References(SortBySortOrder(images)[..count])
  }

  /** Cutting an ascending sequence keeps both halves ascending, loses nothing, and no later element is smaller. */
  lemma SplitSorted(sorted: seq<ReferenceImage>, count: nat)
    requires SortedByOrder(sorted) && count <= |sorted|
    ensures SortedByOrder(sorted[..count])
    ensures multiset(sorted[..count]) + multiset(sorted[count..]) == multiset(sorted)
    ensures forall i, j :: 0 <= i < count && 0 <= j < |sorted| - count ==>
      sorted[..count][i].sortOrder <= sorted[count..][j].sortOrder
  {
    assert sorted == sorted[..count] + sorted[count..];
    forall i, j | 0 <= i < count && 0 <= j < |sorted| - count
      ensures sorted[..count][i].sortOrder <= sorted[count..][j].sortOrder
    {
      assert sorted[..count][i] == sorted[i] && sorted[count..][j] == sorted[count + j];
    }
  }

  /**
   * The selection is the references of `chosen`, ascending images from the
   * board, which with `rest` make up the whole board; no left-out image comes
   * earlier in `sortOrder` than a chosen one.
   */
  lemma SelectionSpec(images: seq<ReferenceImage>, useAllImages: bool, imageCount: nat, count: nat,
                      chosen: seq<ReferenceImage>, rest: seq<ReferenceImage>)
    requires count == SelectedCount(|images|, useAllImages, imageCount)
    requires chosen == SortBySortOrder(images)[..count] && rest == SortBySortOrder(images)[count..]
    ensures Selection(images, useAllImages, imageCount) == References(chosen)
    ensures |chosen| == count && SortedByOrder(chosen)
    ensures multiset(chosen) + multiset(rest) == multiset(images)
    ensures forall i, j :: 0 <= i < |chosen| && 0 <= j < |rest| ==> chosen[i].sortOrder <= rest[j].sortOrder
  {
    SortSpec(images);
    SplitSorted(SortBySortOrder(images), count);
  }

  /** With "use all images" on, every image of the board is in the session. */
  lemma SelectionUsesAll(images: seq<ReferenceImage>, imageCount: nat)
    ensures |Selection(images, true, imageCount)| == |images|
    ensures forall x :: x in images ==> ImageReference(x.id, x.filename) in Selection(images, true, imageCount)
  {
    var sorted := SortBySortOrder(images);
    SortSpec(images);
    assert sorted[..|images|] == sorted;
    forall x | x in images ensures ImageReference(x.id, x.filename) in Selection(images, true, imageCount) {
      assert x in multiset(sorted);
      var k :| 0 <= k < |sorted| && sorted[k] == x;
      assert References(sorted)[k] == ImageReference(x.id, x.filename);
    }
  }

  // ---- Timer presets -------------------------------------------------------------

  /** The preset buttons' seconds, in button order. */
  const PresetSeconds: seq<real> := [30.0, 60.0, 120.0, 300.0, 600.0]

  /** The preset buttons' labels, in button order. */
  const PresetLabels: seq<string> := ["30s", "1m", "2m", "5m", "10m"]

  /** Each preset's label is what `formatInterval` shows for its seconds. */
  lemma PresetLabelsAreIntervals()
    ensures |PresetLabels| == |PresetSeconds|
    ensures forall k :: 0 <= k < |PresetSeconds| ==> Formatting.FormatInterval(PresetSeconds[k]) == PresetLabels[k]
  {
    assert Formatting.FormatInterval(30.0) == "30s" by {
      assert SwiftNumbers.Trunc(30.0) == 30;
    }
    assert Formatting.FormatInterval(60.0) == "1m" by {
      assert SwiftNumbers.Trunc(60.0) == 60;
    }
    assert Formatting.FormatInterval(120.0) == "2m" by {
      assert SwiftNumbers.Trunc(120.0) == 120;
    }
    assert Formatting.FormatInterval(300.0) == "5m" by {
      assert SwiftNumbers.Trunc(300.0) == 300;
    }
    assert Formatting.FormatInterval(600.0) == "10m" by {
      assert SwiftNumbers.Trunc(600.0) == 600;
    }
  }

  // ---- Last-used values ------------------------------------------------------------

  /** The order a stored raw value restores: the decoded order, or shuffle when it does not decode. */
  function StoredOrder(raw: string): (o: PlaybackOrder)
    ensures raw != "sequential" ==> o == Shuffle
  {
    match OrderFromRawValue(raw)
    case Some(o) => o
    case None => Shuffle
  }

  /** Storing an order's raw value and restoring it gives the order back. */
  lemma StoredOrderRoundTrip(o: PlaybackOrder)
    ensures StoredOrder(OrderRawValue(o)) == o
  {
    OrderRawValueRoundTrip(o, OrderRawValue(o));
  }

  /** The `@AppStorage` values the sheet reads and writes. */
  class Defaults {
    var lastTimerInterval: real
    var lastPlaybackOrder: string

    /** Nothing stored yet: the declared defaults. */
    constructor ()
      ensures lastTimerInterval == 60.0 && lastPlaybackOrder == "shuffle"
    {
      lastTimerInterval := 60.0;
      lastPlaybackOrder := "shuffle";
    }
  }

  // ---- The sheet -----------------------------------------------------------------------

  class SessionSetupSheet {
    const board: Board
    const defaults: Defaults
    var timerInterval: real
    var customSeconds: string
    var isCustomTimer: bool
    var playbackOrder: PlaybackOrder
    var useAllImages: bool
    var imageCount: nat

    constructor (board: Board, defaults: Defaults)
      ensures this.board == board && this.defaults == defaults
      ensures timerInterval == 60.0 && customSeconds == [] && !isCustomTimer
      ensures playbackOrder == Shuffle && useAllImages && imageCount == 20
    {
      this.board := board;
      this.defaults := defaults;
      timerInterval := 60.0;
      customSeconds := [];
      isCustomTimer := false;
      playbackOrder := Shuffle;
      useAllImages := true;
      imageCount := 20;
    }

    /** `onAppear`: restore the last-used timer and order, and offer up to 20 images. */
    method OnAppear()
      modifies this
      ensures timerInterval == defaults.lastTimerInterval
      ensures playbackOrder == StoredOrder(defaults.lastPlaybackOrder)
      ensures imageCount == (if |board.images| < 20 then |board.images| else 20)
      ensures customSeconds == old(customSeconds) && isCustomTimer == old(isCustomTimer)
      ensures useAllImages == old(useAllImages)
    {
      timerInterval := defaults.lastTimerInterval;
      playbackOrder := StoredOrder(defaults.lastPlaybackOrder);
      imageCount := if |board.images| < 20 then |board.images| else 20;
    }

    /** A preset button: its seconds become the interval and the custom entry is cleared. */
    method ChoosePreset(k: nat)
      requires k < |PresetSeconds|
      modifies this
      ensures timerInterval == PresetSeconds[k] && !isCustomTimer && customSeconds == []
      ensures playbackOrder == old(playbackOrder) && useAllImages == old(useAllImages)
      ensures imageCount == old(imageCount)
    {
      timerInterval := PresetSeconds[k];
      isCustomTimer := false;
      customSeconds := [];
    }

    /**
     * The custom-seconds field changes to `text`; `parsed` is what
     * `TimeInterval(text)` gives. Only a positive number takes effect.
     */
    method CustomSecondsChanged(text: string, parsed: Option<real>)
      modifies this
      ensures customSeconds == text
      ensures parsed.Some? && parsed.value > 0.0 ==> timerInterval == parsed.value && isCustomTimer
      ensures !(parsed.Some? && parsed.value > 0.0) ==>
        timerInterval == old(timerInterval) && isCustomTimer == old(isCustomTimer)
      ensures playbackOrder == old(playbackOrder) && useAllImages == old(useAllImages)
      ensures imageCount == old(imageCount)
    {
      customSeconds := text;
      if parsed.Some? && parsed.value > 0.0 {
        timerInterval := parsed.value;
        isCustomTimer := true;
      }
    }

    /** "Start": remember the timer and order, and build the configuration from the selection. */
    method StartSession() returns (config: SessionConfiguration)
      modifies defaults
      ensures defaults.lastTimerInterval == timerInterval
      ensures defaults.lastPlaybackOrder == OrderRawValue(playbackOrder)
      ensures config == SessionConfiguration(board.id, board.name,
        Selection(board.images, useAllImages, imageCount), timerInterval, playbackOrder)
    {
      defaults.lastTimerInterval := timerInterval;
      defaults.lastPlaybackOrder := OrderRawValue(playbackOrder);
      var count := SelectedCount(|board.images|, useAllImages, imageCount);
      var sorted := SortBySortOrder(board.images);
      var selected := References(sorted[..count]);
      config := SessionConfiguration(board.id, board.name, selected, timerInterval, playbackOrder);
    }
  }
}
