/**
 * The summary shown when a practice session ends: how many images were
 * done, the order label, and the single session record it saves.
 */
module Summary {
  import opened Wrappers
  import opened Text
  import opened Models
  import opened Session

  /** `imagesCompleted`: every image when the session ran to the end, else the images up to the current one. */
  function ImagesCompleted(s: SessionState): nat
  {
    if CompletedAllImages(s) then |s.images| else s.currentIndex + 1
  }

  /**
   * For a session with images, between one and all of them are done, and all
   * exactly when the session ran out or stopped on the last image.
   */
  lemma ImagesCompletedBounds(s: SessionState)
    requires IndexInRange(s) && |s.images| > 0
    ensures 1 <= ImagesCompleted(s) <= |s.images|
    ensures ImagesCompleted(s) == |s.images| <==> CompletedAllImages(s) || s.currentIndex == |s.images| - 1
  {
  }

  /** With no images the count is 0 only if the countdown had run out; an early end counts one. */
  lemma ImagesCompletedEmpty(s: SessionState)
    requires s.images == []
    ensures ImagesCompleted(s) == (if s.timeRemaining <= 0.0 then 0 else s.currentIndex + 1)
  {
  }

  /** The "Images" row: "<completed> of <count>". */
  function ImagesRow(s: SessionState): string
  {
    Dec(ImagesCompleted(s)) + (" of " + Dec(|s.images|))
  }

  /** Reads an "A of B" row back to its two numbers. */
  function ReadImagesRow(t: string): Option<(nat, nat)>
  {
    var (a, rest) := ReadNat(t);
    if |rest| >= 4 && rest[0] == ' ' && rest[1] == 'o' && rest[2] == 'f' && rest[3] == ' ' then
      var (b, tail) := ReadNat(rest[4..]);
      if tail == [] then Some((a, b)) else None
    else None
  }

  lemma ReadImagesRowDigits(d: string, e: string, a: nat, b: nat)
    requires AllDigits(d) && AllDigits(e) && a == Value(d) && b == Value(e)
    ensures ReadImagesRow(d + (" of " + e)) == Some((a, b))
  {
    ReadNatOfDigits(d, " of " + e);
    ReadNatOfDigits(e, []);
    assert (" of " + e)[4..] == e;
    assert e + [] == e;
  }

  /** The row reads back as the completed count and the session's size. */
  lemma ReadImagesRowRoundTrip(s: SessionState)
    ensures ReadImagesRow(ImagesRow(s)) == Some((ImagesCompleted(s), |s.images|))
  {
    ValueOfDec(ImagesCompleted(s));
    ValueOfDec(|s.images|);
    ReadImagesRowDigits(Dec(ImagesCompleted(s)), Dec(|s.images|), ImagesCompleted(s), |s.images|);
  }

  /** The "Order" row. */
  function OrderLabel(o: PlaybackOrder): string
  {
    if o == Shuffle then "Shuffle" else "Sequential"
  }

  /** The label is the raw value with a capital letter: lowercased, it is the raw value. */
  lemma OrderLabelLowered(o: PlaybackOrder)
    ensures Lower(OrderLabel(o)) == OrderRawValue(o)
  {
    if o == Shuffle {
      assert Lower("Shuffle") == [LowerChar('S')] + Lower("huffle");
    } else {
      assert Lower("Sequential") == [LowerChar('S')] + Lower("equential");
    }
  }

  // ---- Saving ---------------------------------------------------------------------------

  /** The record `saveIfNeeded` builds when the summary is shown at `now`. */
  function RecordOf(vm: SessionViewModel, recordId: Uuid, now: Time): (r: SessionRecord)
    reads vm
  {
    SessionRecord(recordId, vm.boardId, vm.boardName, vm.startedAt, now, now - vm.startedAt,
      ImagesCompleted(vm.State()), vm.timerInterval, vm.playbackOrder, CompletedAllImages(vm.State()))
  }

  /** One call of `saveIfNeeded` on the `saved` flag and the stored records. */
  function SaveStep(saved: bool, sessions: seq<SessionRecord>, record: SessionRecord): (bool, seq<SessionRecord>)
  {
    if saved then (true, sessions) else (true, sessions + [record])
  }

  /** Successive calls, each with the record it would build. */
  function SaveCalls(saved: bool, sessions: seq<SessionRecord>, records: seq<SessionRecord>): (bool, seq<SessionRecord>)
    decreases |records|
  {
    if records == [] then (saved, sessions)
    else
      var (saved', sessions') := SaveStep(saved, sessions, records[0]);
      SaveCalls(saved', sessions', records[1..])
  }

  /** However often it is called, at most one record is stored: the first call's, and only if nothing was saved before. */
  lemma {:induction false} AtMostOneSave(saved: bool, sessions: seq<SessionRecord>, records: seq<SessionRecord>)
    ensures SaveCalls(saved, sessions, records).1 ==
      if saved || records == [] then sessions else sessions + [records[0]]
    ensures records != [] ==> SaveCalls(saved, sessions, records).0
    decreases |records|
  {
    if records != [] {
      var (saved', sessions') := SaveStep(saved, sessions, records[0]);
      AtMostOneSave(saved', sessions', records[1..]);
    }
  }

  /** What the summary asks its owner to do. */
  datatype SummaryAction = CloseRequested | RestartRequested

  class SessionSummaryView {
    const viewModel: SessionViewModel
    const context: ModelContext
    var saved: bool

    constructor (viewModel: SessionViewModel, context: ModelContext)
      ensures this.viewModel == viewModel && this.context == context && !saved
    {
      this.viewModel := viewModel;
      this.context := context;
      saved := false;
    }

    /** `saveIfNeeded`, with `recordId` the new record's `UUID()` and `now` the `Date()` read. */
    method SaveIfNeeded(recordId: Uuid, now: Time)
      modifies this, context
      ensures (saved, context.sessions) == SaveStep(old(saved), old(context.sessions), RecordOf(viewModel, recordId, now))
      ensures context.boards == old(context.boards)
    {
      if saved {
        return;
      }
      saved := true;
      var record := RecordOf(viewModel, recordId, now);
      context.InsertSession(record);
    }

    /** "Done": save if not yet saved, then close. */
    method Done(recordId: Uuid, now: Time) returns (action: SummaryAction)
      modifies this, context
      ensures (saved, context.sessions) == SaveStep(old(saved), old(context.sessions), RecordOf(viewModel, recordId, now))
      ensures context.boards == old(context.boards)
      ensures action == CloseRequested
    {
      SaveIfNeeded(recordId, now);
      action := CloseRequested;
    }

    /** "Restart": save if not yet saved, then ask for the same session again. */
    method Restart(recordId: Uuid, now: Time) returns (action: SummaryAction)
      modifies this, context
      ensures (saved, context.sessions) == SaveStep(old(saved), old(context.sessions), RecordOf(viewModel, recordId, now))
      ensures context.boards == old(context.boards)
      ensures action == RestartRequested
    {
      SaveIfNeeded(recordId, now);
      action := RestartRequested;
    }
  }
}
