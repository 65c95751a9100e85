/**
 * The board screen's view model: importing a batch of dropped or picked files
 * into the board (skipping images whose content the board already holds) and
 * deleting a selection of images together with their files.
 */
module BoardDetail {
  import opened Wrappers
  import opened Text
  import opened Models
  import opened StoragePaths
  import opened FileTree
  import opened ImageStorage
  import Seqs

  type Outcome = Result<ImportedImage, ImportError>

  // ---- Specification of a batch import -------------------------------------------

  /** Importing `paths` one after another: each one's outcome, and the store at the end. */
  function ImportAll(s: Store, paths: seq<Path>, boardId: Uuid, c: Codecs): (r: (seq<Outcome>, Store))
    ensures |r.0| == |paths|
  {
    if paths == [] then ([], s)
    else
      var (outcomes, s1) := ImportAll(s, paths[..|paths| - 1], boardId, c);
      var (outcome, s2) := Import(s1, paths[|paths| - 1], boardId, c);
      (outcomes + [outcome], s2)
  }

  /** The hashes of the images a board held when the import began. */
  function HashesOf(images: seq<ReferenceImage>): set<string>
  {
    set k | 0 <= k < |images| :: images[k].fileHash
  }

  /** A successful outcome whose content the board already holds. */
  predicate IsDuplicate(o: Outcome, existing: set<string>)
  {
    o.Success? && o.value.fileHash in existing
  }

  /** The images a batch adds: successes whose hash was not on the board, in order. */
  function Added(outcomes: seq<Outcome>, existing: set<string>): seq<ImportedImage>
  {
    if outcomes == [] then []
    else
      var last := outcomes[|outcomes| - 1];
      Added(outcomes[..|outcomes| - 1], existing)
        + (if last.Success? && !IsDuplicate(last, existing) then [last.value] else [])
  }

  /** How many successes were skipped as duplicates. */
  function Duplicates(outcomes: seq<Outcome>, existing: set<string>): nat
  {
    if outcomes == [] then 0
    else
      Duplicates(outcomes[..|outcomes| - 1], existing)
        + (if IsDuplicate(outcomes[|outcomes| - 1], existing) then 1 else 0)
  }

  function Failures(outcomes: seq<Outcome>): nat
  {
    if outcomes == [] then 0
    else Failures(outcomes[..|outcomes| - 1]) + (if outcomes[|outcomes| - 1].Failure? then 1 else 0)
  }

  /** `"N imported, M duplicate(s) skipped"`. */
  function ImportMessage(imported: nat, duplicates: nat): string
  {
    Dec(imported) + (" imported, " + (Dec(duplicates) + DuplicatesSkipped(duplicates)))
  }

  /** The message's tail: "duplicate" takes an "s" unless there is exactly one. */
  function DuplicatesSkipped(duplicates: nat): string
  {
    if duplicates == 1 then " duplicate skipped" else " duplicates skipped"
  }

  /** The message the view shows once the batch is done, if any. */
  function Message(outcomes: seq<Outcome>, existing: set<string>): Option<string>
  {
    var duplicates := Duplicates(outcomes, existing);
    if duplicates > 0 then Some(ImportMessage(|Added(outcomes, existing)|, duplicates)) else None
  }

  /** Reads the two counts back out of an import message. */
  function ParseImportMessage(msg: string): Option<(nat, nat)>
  {
    var first := ReadNat(msg);
    var rest := first.1;
    if DigitRun(msg) == 0 || |rest| < 11 || rest[..11] != " imported, " then None
    else
      var second := ReadNat(rest[11..]);
      if DigitRun(rest[11..]) == 0 then None
      else if (second.0 == 1 && second.1 == " duplicate skipped")
           || (second.0 != 1 && second.1 == " duplicates skipped")
      then Some((first.0, second.0))
      else None
  }

  /** A record created for `imported` with the given id, time and position. */
  predicate Describes(image: ReferenceImage, imported: ImportedImage, id: Uuid, now: Time, sortOrder: int)
  {
    && image.id == id
    && image.filename == imported.filename
    && image.fileHash == imported.fileHash
    && image.width == imported.width
    && image.height == imported.height
    && image.addedAt == now
    && image.sortOrder == sortOrder
    && image.focalY == 0.5
  }

  // ---- Properties of a batch import ----------------------------------------------

  /** Every file of a batch is either added, skipped as a duplicate, or failed. */
  lemma {:induction false} OutcomesPartition(outcomes: seq<Outcome>, existing: set<string>)
    ensures |Added(outcomes, existing)| + Duplicates(outcomes, existing) + Failures(outcomes) == |outcomes|
  {
    if outcomes != [] {
      OutcomesPartition(outcomes[..|outcomes| - 1], existing);
    }
  }

  /**
   * Nothing the board already held is added again, and each added image is the
   * outcome of some file of the batch.
   */
  lemma {:induction false} AddedAreNew(outcomes: seq<Outcome>, existing: set<string>)
    ensures forall k :: 0 <= k < |Added(outcomes, existing)| ==>
      Added(outcomes, existing)[k].fileHash !in existing
      && Success(Added(outcomes, existing)[k]) in outcomes
  {
    if outcomes != [] {
      var init := outcomes[..|outcomes| - 1];
      AddedAreNew(init, existing);
      forall k | 0 <= k < |Added(init, existing)|
        ensures Success(Added(init, existing)[k]) in outcomes
      {
        var j :| 0 <= j < |init| && init[j] == Success(Added(init, existing)[k]);
        assert outcomes[j] == init[j];
      }
    }
  }

  /**
   * Hashes are compared only with what the board held before the batch: two
   * files of one batch with the same new content are both added.
   */
  lemma SameBatchDuplicatesBothAdded(a: ImportedImage, b: ImportedImage, existing: set<string>)
    requires a.fileHash == b.fileHash && a.fileHash !in existing
    ensures Added([Success(a), Success(b)], existing) == [a, b]
    ensures Duplicates([Success(a), Success(b)], existing) == 0
  {
    var outcomes: seq<Outcome> := [Success(a), Success(b)];
    var one: seq<Outcome> := [Success(a)];
    assert one[..0] == [];
    assert Added(one, existing) == [a];
    assert Duplicates(one, existing) == 0;
    assert outcomes[..1] == one;
  }

  /** A batch only adds files and directories, never replaces or removes one. */
  lemma {:induction false} ImportAllNeverOverwrites(s: Store, paths: seq<Path>, boardId: Uuid, c: Codecs)
    ensures var s' := ImportAll(s, paths, boardId, c).1;
      && (forall p :: p in s.files ==> p in s'.files && s'.files[p] == s.files[p])
      && s.directories <= s'.directories
  {
    if paths != [] {
      var init := paths[..|paths| - 1];
      ImportAllNeverOverwrites(s, init, boardId, c);
      ImportNeverOverwrites(ImportAll(s, init, boardId, c).1, paths[|paths| - 1], boardId, c);
    }
  }

  /** Each successful outcome's original is among the files of `s`. */
  predicate OriginalsStored(outcomes: seq<Outcome>, s: Store, boardId: Uuid)
  {
    forall k :: 0 <= k < |outcomes| && outcomes[k].Success? ==> ImageUrl(outcomes[k].value.filename, boardId) in s.files
  }

  /** Every successful import of a batch has its original on disk when the batch ends. */
  lemma {:induction false} ImportAllStoresOriginals(s: Store, paths: seq<Path>, boardId: Uuid, c: Codecs)
    ensures OriginalsStored(ImportAll(s, paths, boardId, c).0, ImportAll(s, paths, boardId, c).1, boardId)
  {
    if paths != [] {
      var init := paths[..|paths| - 1];
      var before := ImportAll(s, init, boardId, c);
      var step := Import(before.1, paths[|paths| - 1], boardId, c);
      ImportAllStoresOriginals(s, init, boardId, c);
      assert OriginalsStored(before.0, before.1, boardId);
      ImportNeverOverwrites(before.1, paths[|paths| - 1], boardId, c);
      if step.0.Success? {
        ImportStoresOriginal(before.1, paths[|paths| - 1], boardId, c);
      }
      var outcomes := before.0 + [step.0];
      assert ImportAll(s, paths, boardId, c) == (outcomes, step.1);
      assert forall p :: p in before.1.files ==> p in step.1.files;
      forall k | 0 <= k < |outcomes| && outcomes[k].Success?
        ensures ImageUrl(outcomes[k].value.filename, boardId) in step.1.files
      {
        if k < |before.0| {
          assert outcomes[k] == before.0[k];
          assert before.0[k].Success?;
          assert ImageUrl(before.0[k].value.filename, boardId) in before.1.files;
        } else {
          assert outcomes[k] == step.0;
          assert ImageUrl(step.0.value.filename, boardId) in step.1.files;
        }
      }
    }
  }

  /** A count followed by a space reads back whole, and its digit run is not empty. */
  lemma ReadCount(n: nat, t: string)
    requires t != [] && t[0] == ' '
    ensures ReadNat(Dec(n) + t) == (n, t) && DigitRun(Dec(n) + t) > 0
  {
    ReadNatOfDec(n, t);
    DigitRunOf(Dec(n), t);
  }

  /** The message reads back as the two counts, with "duplicate" singular exactly for one. */
  lemma ReadImportMessage(imported: nat, duplicates: nat)
    ensures ParseImportMessage(ImportMessage(imported, duplicates)) == Some((imported, duplicates))
  {
    var tail := DuplicatesSkipped(duplicates);
    var second := Dec(duplicates) + tail;
    var rest := " imported, " + second;
    ReadCount(imported, rest);
    assert rest[..11] == " imported, " && rest[11..] == second;
    ReadCount(duplicates, tail);
  }

  // ---- Specification of deletion -------------------------------------------------

  /** Deleting the files of each name in turn. */
  function DeleteAll(s: Store, filenames: seq<string>, boardId: Uuid): Store
  {
    if filenames == [] then s
    else DeleteImageFiles(DeleteAll(s, filenames[..|filenames| - 1], boardId), filenames[|filenames| - 1], boardId)
  }

  /** After deleting a selection, none of its files remain and every other file is untouched. */
  lemma {:induction false} DeleteAllRemovesExactly(s: Store, filenames: seq<string>, boardId: Uuid)
    ensures var s' := DeleteAll(s, filenames, boardId);
      && (forall f :: f in filenames ==> ImageUrl(f, boardId) !in s'.files && ThumbnailUrl(f, boardId) !in s'.files)
      && (forall p :: p in s.files && (forall f :: f in filenames ==> p != ImageUrl(f, boardId) && p != ThumbnailUrl(f, boardId))
            ==> p in s'.files && s'.files[p] == s.files[p])
      && s'.directories == s.directories
  {
    if filenames != [] {
      var init := filenames[..|filenames| - 1];
      DeleteAllRemovesExactly(s, init, boardId);
      DeleteImageRemovesBoth(DeleteAll(s, init, boardId), filenames[|filenames| - 1], boardId);
      assert forall f :: f in filenames ==> f in init || f == filenames[|filenames| - 1];
    }
  }

  /** The images whose id is among `ids`, in board order. */
  function Selected(images: seq<ReferenceImage>, ids: set<Uuid>): (r: seq<ReferenceImage>)
    ensures |r| <= |images|
  {
    if images == [] then []
    else (if images[0].id in ids then [images[0]] else []) + Selected(images[1..], ids)
  }

  /** An image of the board is selected exactly when its id is. */
  lemma {:induction false} SelectedMembers(images: seq<ReferenceImage>, ids: set<Uuid>)
    ensures forall i :: 0 <= i < |images| ==> (images[i] in Selected(images, ids) <==> images[i].id in ids)
  {
    if images != [] {
      SelectedMembers(images[1..], ids);
      var head := if images[0].id in ids then [images[0]] else [];
      var r := Selected(images, ids);
      assert r == head + Selected(images[1..], ids);
      SelectedIds(images[1..], ids);
      forall i | 0 <= i < |images| ensures images[i] in r <==> images[i].id in ids {
        if i > 0 {
          assert images[i] == images[1..][i - 1];
        }
      }
    }
  }

  lemma {:induction false} SelectedIds(images: seq<ReferenceImage>, ids: set<Uuid>)
    ensures forall x :: x in Selected(images, ids) ==> x.id in ids
  {
    if images != [] {
      SelectedIds(images[1..], ids);
    }
  }

  function Filenames(images: seq<ReferenceImage>): (names: seq<string>)
    ensures |names| == |images| && forall k :: 0 <= k < |images| ==> names[k] == images[k].filename
  {
    seq(|images|, k requires 0 <= k < |images| => images[k].filename)
  }

  lemma ImportAllStep(s: Store, paths: seq<Path>, i: nat, boardId: Uuid, c: Codecs)
    requires i < |paths|
    ensures ImportAll(s, paths[..i + 1], boardId, c).0
         == ImportAll(s, paths[..i], boardId, c).0 + [Import(ImportAll(s, paths[..i], boardId, c).1, paths[i], boardId, c).0]
    ensures ImportAll(s, paths[..i + 1], boardId, c).1
         == Import(ImportAll(s, paths[..i], boardId, c).1, paths[i], boardId, c).1
  {
    assert paths[..i + 1][..i] == paths[..i];
  }

  lemma AddedStep(outcomes: seq<Outcome>, o: Outcome, existing: set<string>)
    ensures Added(outcomes + [o], existing)
         == Added(outcomes, existing) + (if o.Success? && !IsDuplicate(o, existing) then [o.value] else [])
    ensures Duplicates(outcomes + [o], existing)
         == Duplicates(outcomes, existing) + (if IsDuplicate(o, existing) then 1 else 0)
  {
    assert (outcomes + [o])[..|outcomes|] == outcomes;
  }

  lemma DeleteAllStep(s: Store, names: seq<string>, filename: string, boardId: Uuid)
    ensures DeleteAll(s, names + [filename], boardId) == DeleteImageFiles(DeleteAll(s, names, boardId), filename, boardId)
  {
    assert (names + [filename])[..|names|] == names;
  }

  lemma FilenamesStep(images: seq<ReferenceImage>, j: nat)
    requires j < |images|
    ensures Filenames(images[..j + 1]) == Filenames(images[..j]) + [images[j].filename]
  {
  }

  /**
   * `records` are the records a batch created, in order: the k-th describes the
   * k-th added image, has id `newId(k)` and sits at position `start + k`.
   */
  predicate Records(records: seq<ReferenceImage>, start: nat, added: seq<ImportedImage>, newId: nat -> Uuid, now: Time)
  {
    && |records| == |added|
    && forall k :: 0 <= k < |added| ==> Describes(records[k], added[k], newId(k), now, start + k)
  }

  lemma RecordsStep(records: seq<ReferenceImage>, start: nat, added: seq<ImportedImage>, newId: nat -> Uuid, now: Time,
                    r: ReferenceImage, a: ImportedImage)
    requires Records(records, start, added, newId, now)
    requires Describes(r, a, newId(|added|), now, start + |added|)
    ensures Records(records + [r], start, added + [a], newId, now)
  {
  }

  function OptionList<T>(o: Option<T>): (s: seq<T>)
    ensures |s| <= 1
  {
    if o.Some? then [o.value] else []
  }

  lemma RecordsNext(records: seq<ReferenceImage>, start: nat, added: seq<ImportedImage>, newId: nat -> Uuid, now: Time,
                    r: Option<ReferenceImage>, o: Outcome, existing: set<string>)
    requires Records(records, start, added, newId, now)
    requires r.Some? <==> o.Success? && !IsDuplicate(o, existing)
    requires r.Some? ==> Describes(r.value, o.value, newId(|added|), now, start + |added|)
    ensures Records(records + OptionList(r), start, added + (if r.Some? then [o.value] else []), newId, now)
  {
    if r.Some? {
      RecordsStep(records, start, added, newId, now, r.value, o.value);
    } else {
      assert records + OptionList(r) == records;
      assert added + [] == added;
    }
  }

  lemma AppendAssociates(a: seq<ReferenceImage>, b: seq<ReferenceImage>, c: seq<ReferenceImage>)
    ensures (a + b) + c == a + (b + c)
  {
  }

  /** One pass of the import loop keeps the loop's bookkeeping in step with `ImportAll`. */
  lemma ImportLoopStep(s0: Store, paths: seq<Path>, i: nat, boardId: Uuid, c: Codecs, existing: set<string>,
                       outcomes: seq<Outcome>, records: seq<ReferenceImage>, start: nat, newId: nat -> Uuid, now: Time,
                       before: Store, result: Outcome, r: Option<ReferenceImage>, after: Store)
    requires i < |paths|
    requires (outcomes, before) == ImportAll(s0, paths[..i], boardId, c)
    requires (result, after) == Import(before, paths[i], boardId, c)
    requires Records(records, start, Added(outcomes, existing), newId, now)
    requires r.Some? <==> result.Success? && !IsDuplicate(result, existing)
    requires r.Some? ==> Describes(r.value, result.value, newId(|Added(outcomes, existing)|), now, start + |records|)
    ensures (outcomes + [result], after) == ImportAll(s0, paths[..i + 1], boardId, c)
    ensures Added(outcomes + [result], existing) == Added(outcomes, existing) + (if r.Some? then [result.value] else [])
    ensures Duplicates(outcomes + [result], existing) == Duplicates(outcomes, existing) + (if IsDuplicate(result, existing) then 1 else 0)
    ensures Records(records + OptionList(r), start, Added(outcomes + [result], existing), newId, now)
  {
    ImportAllStep(s0, paths, i, boardId, c);
    AddedStep(outcomes, result, existing);
    RecordsNext(records, start, Added(outcomes, existing), newId, now, r, result, existing);
  }

  // ---- The view model --------------------------------------------------------------

  class BoardDetailViewModel {
    const board: Board
    const storage: ImageStorageService
    var isImporting: bool
    var importMessage: Option<string>

    constructor (board: Board, storage: ImageStorageService)
      ensures this.board == board && this.storage == storage
      ensures !isImporting && importMessage == None
    {
      this.board := board;
      this.storage := storage;
      isImporting := false;
      importMessage := None;
    }

    /** A new record for `imported` joins the end of the board's list, and the board is marked updated. */
    method AddRecord(imported: ImportedImage, id: Uuid, now: Time) returns (r: ReferenceImage)
      requires board.Valid()
      modifies board
      ensures board.Valid()
      ensures board.images == old(board.images) + [r]
      ensures Describes(r, imported, id, now, |old(board.images)|)
      ensures board.updatedAt == now
      ensures board.name == old(board.name) && board.color == old(board.color)
    {
      r := new ReferenceImage(id, imported.filename, imported.fileHash,
                              imported.width, imported.height, now, |board.images|);
      board.Attach(r);
      board.updatedAt := now;
    }

    /**
     * One pass of the import loop: the file is imported and, unless it failed or
     * its content was already on the board, a record for it is added.
     */
    method ImportOne(url: Path, existingHashes: set<string>, id: Uuid, now: Time) returns (result: Outcome, r: Option<ReferenceImage>)
      requires board.Valid()
      modifies board, storage
      ensures board.Valid()
      ensures (result, storage.State()) == Import(old(storage.State()), url, board.id, storage.codecs)
      ensures r.Some? <==> result.Success? && result.value.fileHash !in existingHashes
      ensures board.images == old(board.images) + OptionList(r)
      ensures r.Some? ==> Describes(r.value, result.value, id, now, |old(board.images)|)
      ensures board.updatedAt == (if r.Some? then now else old(board.updatedAt))
      ensures board.name == old(board.name) && board.color == old(board.color)
    {
      result := storage.ImportImage(url, board.id);
      r := None;
      if result.Success? && result.value.fileHash !in existingHashes {
        var record := AddRecord(result.value, id, now);
        r := Some(record);
      } else {
        assert old(board.images) + OptionList(r) == old(board.images);
      }
    }

    /**
     * The import loop over the collected files: every file is imported in turn;
     * those whose content the board held before the loop are counted as duplicates.
     */
    method ImportEach(paths: seq<Path>, existingHashes: set<string>, newId: nat -> Uuid, now: Time)
      returns (imported: nat, duplicates: nat)
      requires board.Valid()
      modifies board, storage
      ensures board.Valid()
      ensures storage.State() == ImportAll(old(storage.State()), paths, board.id, storage.codecs).1
      ensures imported == |Added(ImportAll(old(storage.State()), paths, board.id, storage.codecs).0, existingHashes)|
      ensures duplicates == Duplicates(ImportAll(old(storage.State()), paths, board.id, storage.codecs).0, existingHashes)
      ensures |board.images| >= |old(board.images)| && board.images[..|old(board.images)|] == old(board.images)
      ensures Records(board.images[|old(board.images)|..], |old(board.images)|,
                      Added(ImportAll(old(storage.State()), paths, board.id, storage.codecs).0, existingHashes), newId, now)
      ensures board.updatedAt == (if imported == 0 then old(board.updatedAt) else now)
      ensures board.name == old(board.name) && board.color == old(board.color)
    {
      imported, duplicates := 0, 0;
      ghost var s0 := storage.State();
      ghost var images0 := board.images;
      ghost var updated0 := board.updatedAt;
      ghost var outcomes: seq<Outcome> := [];
      ghost var records: seq<ReferenceImage> := [];
      var i := 0;
      while i < |paths|
        invariant 0 <= i <= |paths|
        invariant board.Valid()
        invariant (outcomes, storage.State()) == ImportAll(s0, paths[..i], board.id, storage.codecs)
        invariant imported == |Added(outcomes, existingHashes)|
        invariant duplicates == Duplicates(outcomes, existingHashes)
        invariant board.images == images0 + records
        invariant Records(records, |images0|, Added(outcomes, existingHashes), newId, now)
        invariant board.updatedAt == (if imported == 0 then updated0 else now)
        invariant board.name == old(board.name) && board.color == old(board.color)
      {
        ghost var before := storage.State();
        var result, r := ImportOne(paths[i], existingHashes, newId(imported), now);
        ImportLoopStep(s0, paths, i, board.id, storage.codecs, existingHashes, outcomes, records, |images0|,
                       newId, now, before, result, r, storage.State());
        AppendAssociates(images0, records, OptionList(r));
        outcomes := outcomes + [result];
        records := records + OptionList(r);
        imported := imported + |OptionList(r)|;
        duplicates := duplicates + (if IsDuplicate(result, existingHashes) then 1 else 0);
        i := i + 1;
      }
      assert paths[..i] == paths;
      assert board.images[..|images0|] == images0 && board.images[|images0|..] == records;
    }

    /**
     * `importImages(from:)`. The k-th record created gets `newId(k)`; `now`
     * stands for every `Date()` read during the batch.
     */
    method ImportImages(urls: seq<Node>, newId: nat -> Uuid, now: Time)
      requires board.Valid()
      modifies this, board, storage
      ensures board.Valid()
      ensures storage.State() == ImportAll(old(storage.State()), Collected(urls), board.id, storage.codecs).1
      ensures |board.images| >= |old(board.images)| && board.images[..|old(board.images)|] == old(board.images)
      ensures Records(board.images[|old(board.images)|..], |old(board.images)|,
                      Added(ImportAll(old(storage.State()), Collected(urls), board.id, storage.codecs).0,
                            HashesOf(old(board.images))), newId, now)
      ensures board.updatedAt
        == (if Added(ImportAll(old(storage.State()), Collected(urls), board.id, storage.codecs).0,
                     HashesOf(old(board.images))) == []
            then old(board.updatedAt) else now)
      ensures importMessage == Message(ImportAll(old(storage.State()), Collected(urls), board.id, storage.codecs).0,
                                       HashesOf(old(board.images)))
      ensures board.name == old(board.name) && board.color == old(board.color)
      ensures !isImporting
    {
      isImporting := true;
      importMessage := None;
      var imageUrls := storage.CollectImageUrls(urls);
      var existingHashes := HashesOf(board.images);
      var imported, duplicates := ImportEach(imageUrls, existingHashes, newId, now);
      isImporting := false;
      if duplicates > 0 {
        importMessage := Some(ImportMessage(imported, duplicates));
      }
    }

    /** One pass of the deletion loop: the image's files go, then the image leaves the board. */
    method DeleteOne(image: ReferenceImage)
      requires board.Valid()
      modifies board, storage
      ensures board.Valid()
      ensures board.images == Seqs.Without(old(board.images), {image})
      ensures storage.State() == DeleteImageFiles(old(storage.State()), image.filename, board.id)
      ensures board.name == old(board.name) && board.color == old(board.color) && board.updatedAt == old(board.updatedAt)
    {
      storage.DeleteImage(image.filename, board.id);
      board.Detach(image);
    }

    /** The loop of `deleteImages(_:)`: each image's files are removed and the image leaves the board. */
    method DeleteEach(images: seq<ReferenceImage>)
      requires board.Valid()
      modifies board, storage
      ensures board.Valid()
      ensures board.images == Seqs.Without(old(board.images), set x | x in images)
      ensures storage.State() == DeleteAll(old(storage.State()), Filenames(images), board.id)
      ensures board.name == old(board.name) && board.color == old(board.color) && board.updatedAt == old(board.updatedAt)
    {
      ghost var images0 := board.images;
      ghost var s0 := storage.State();
      ghost var gone: set<ReferenceImage> := {};
      Seqs.WithoutNothing(images0);
      var j := 0;
      while j < |images|
        invariant 0 <= j <= |images|
        invariant board.Valid()
        invariant board.images == Seqs.Without(images0, gone)
        invariant gone == set x | x in images[..j]
        invariant storage.State() == DeleteAll(s0, Filenames(images[..j]), board.id)
        invariant board.name == old(board.name) && board.color == old(board.color) && board.updatedAt == old(board.updatedAt)
      {
        var image := images[j];
        DeleteOne(image);
        DeleteAllStep(s0, Filenames(images[..j]), image.filename, board.id);
        FilenamesStep(images, j);
        Seqs.WithoutTwice(images0, gone, {image});
        assert images[..j + 1] == images[..j] + [image];
        gone := gone + {image};
        j := j + 1;
      }
      assert images[..j] == images;
    }

    /** `deleteImages(_:)`: the selected images go, with their files; the rest keep their order. */
    method DeleteImages(ids: set<Uuid>, now: Time)
      requires board.Valid()
      modifies board, storage
      ensures board.Valid()
      ensures board.images == Seqs.Without(old(board.images), set x | x in old(board.images) && x.id in ids)
      ensures storage.State() == DeleteAll(old(storage.State()), Filenames(Selected(old(board.images), ids)), board.id)
      ensures board.updatedAt == now
      ensures board.name == old(board.name) && board.color == old(board.color)
    {
      var toDelete := Selected(board.images, ids);
      ghost var images0 := board.images;
      DeleteEach(toDelete);
      SelectedMembers(images0, ids);
      Seqs.WithoutCongruent(images0, set x | x in toDelete, set x | x in images0 && x.id in ids);
      board.updatedAt := now;
    }
  }
}
