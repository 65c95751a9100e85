# Gesto in Dafny

Gesto is a macOS app for timed figure-drawing practice. Users keep boards of reference images. They import files and folders into a board, and the images are stored on disk under content-derived names. A practice session shows a board's images one at a time under a countdown, and finished sessions are recorded.

This project models the logic behind those features:

- **The image store** (`ImageStorage`, `StoragePaths`, `Hex`, `FileTree`). The disk is a map from paths to bytes plus a set of directories. Its operations are import, thumbnails, deletion and the recursive file collector.
- **The board screen** (`BoardDetail`). The batch-import loop has duplicate detection against a snapshot of the board's hashes and the summary message. Deletion is by a set of ids.
- **The session** (`Session`, `Practice`, `TimerBar`, `Summary`, `Content`):
  - the timer state machine and its keyboard controls
  - the countdown text and bar
  - the summary and its single saved record
  - the root view's idle → practising → summary phases
- **Setting up a session** (`Setup`): the timer presets, custom seconds, remembered defaults, and the selection of the first images by `sortOrder`.
- **The library** (`Library`): the search filter, and creating, renaming and deleting boards through the inline form and the new-board sheet.
- **Formatting and layout** (`Formatting`, `Focal`, `SwiftNumbers`, `Text`):
  - the duration and interval texts
  - the focal-point crop of thumbnails
  - Swift's truncating integer arithmetic, written out
- **The stored entities** (`Models`): `Board` and `ReferenceImage` are classes with an inverse relationship. `SessionRecord` and `SessionConfiguration` are values. A `ModelContext` holds the stored boards and records.

How each kind of code is modelled:

- State that the app changes in place is a class with `modifies` clauses. Each method's `ensures` gives its whole new state. The session, practice, content, board-detail, summary and storage methods do so through a specification function. The simpler form and sheet actions (showing, cancelling, beginning a rename or a delete, choosing a preset) and the constructors list their fields directly. The classes are:
  - the view models and views: `SessionViewModel`, `BoardDetailViewModel`, `PracticeView`, `SessionSetupSheet`, `SessionSummaryView`, `ContentView`, `LibraryView`, `NewBoardSheet`
  - the storage service
  - the entities
- Loops in the source (`importImages`, `deleteImages`, `collectImageURLs`) are `while` loops with invariants.
- Pure helpers are functions, with lemmas about them.

The following are inputs to the model rather than computed by it:

- clock reads (`Date()`) and fresh ids (`UUID()`)
- the shuffle result: any permutation of the configured images
- the parsed custom seconds
- SHA-256, ImageIO's decoder and the thumbnail encoder, which are the fields of `ImageStorage.Codecs`
- `localizedCaseInsensitiveContains`, which is a parameter

## Model

| member | source | states |
|---|---|---|
| Models.OrderRawValue | Gesto/Models/SessionRecord.swift:4-7 | the raw value is "shuffle" or "sequential" |
| Models.OrderFromRawValue | Gesto/Models/SessionRecord.swift:4-7 | decoding succeeds exactly for the two raw values |
| Models.OrderRawValueRoundTrip | Gesto/Models/SessionRecord.swift:4-7 | a string decodes to an order iff it is that order's raw value |
| Models.ReferenceImage.constructor | Gesto/Models/ReferenceImage.swift:17-26 | fields are stored verbatim; `sortOrder` defaults to 0 and `focalY` to 0.5; `board` is nil until the image is attached |
| Models.Board.constructor | Gesto/Models/Board.swift:15-21 | name and color stored as given (color defaults to nil); created and updated at the same instant; no images |
| Models.Board.Attach | Gesto/Models/Board.swift:12-13 | setting an image's board appends it to the board's list and keeps both ends of the relationship consistent |
| Models.Board.Detach | Gesto/Models/Board.swift:12-13 | deleting an image removes it from its board's list; the rest keep their order |
| Models.InverseRelationship | Gesto/Models/Board.swift:12 | an image is in a board's list iff its `board` is that board |
| Models.CascadeDelete | Gesto/Models/Board.swift:12 | deleting a board removes exactly its images from the store |
| Models.ModelContext.InsertBoard | Gesto/Models/Board.swift:6 | a board with an id not yet stored is appended; ids stay unique |
| Models.ModelContext.DeleteBoard | Gesto/Models/Board.swift:12 | the board leaves the stored list; ids stay unique |
| Models.ModelContext.InsertSession | Gesto/Models/SessionRecord.swift:22-43 | the record is appended; boards are untouched |
| Hex.ByteHex | Gesto/Services/ImageStorageService.swift:60 | `%02x`: two lowercase hex digits, high nibble first, that read back as the byte |
| Hex.HexString | Gesto/Services/ImageStorageService.swift:60 | the joined rendering is twice as long as the digest and all hex digits |
| Hex.HexStringAt | Gesto/Services/ImageStorageService.swift:60 | byte i is rendered at characters 2i and 2i+1, in digest order |
| Hex.ParseHexString | Gesto/Services/ImageStorageService.swift:60 | parsing the hash string gives the digest back |
| Hex.HexStringInjective | Gesto/Services/ImageStorageService.swift:60 | distinct digests have distinct hash strings |
| StoragePaths.SupportedExtensionsCount | Gesto/Services/ImageStorageService.swift:10-12 | the allow-list has ten extensions |
| StoragePaths.PathExtension | Gesto/Services/ImageStorageService.swift:69 | the extension is what follows the last dot that is not the name's first character, and contains no dot |
| StoragePaths.LeadingDotIsName | Gesto/Services/ImageStorageService.swift:138 | a name like ".png" has no extension: the leading dot belongs to the name |
| StoragePaths.ExtensionSplit | Gesto/Services/ImageStorageService.swift:46 | name = stem + "." + extension when there is a dot; otherwise the stem is the name and the extension is empty |
| StoragePaths.StoredExtension | Gesto/Services/ImageStorageService.swift:69-70 | the lowercased source extension, or "jpg" when it is empty |
| StoragePaths.CanonicalFilenameParts | Gesto/Services/ImageStorageService.swift:69-70 | the canonical filename splits back into the hex hash and the stored extension |
| StoragePaths.ThumbnailOfCanonical | Gesto/Services/ImageStorageService.swift:44-51 | the thumbnail of a canonical name is `Thumbnails/<board>/<hash>_thumb.jpg` and depends only on the hash |
| StoragePaths.LocationsDistinct | Gesto/Services/ImageStorageService.swift:36-51 | originals coincide iff filename and board coincide, and never coincide with a thumbnail |
| ImageStorage.ContentHash | Gesto/Services/ImageStorageService.swift:60 | the hash is 64 lowercase hex digits |
| ImageStorage.RemoveTree | Gesto/Services/ImageStorageService.swift:124-125 | removing a directory removes exactly what lies under it and keeps every other file unchanged |
| ImageStorage.ImportOutcome | Gesto/Services/ImageStorageService.swift:55-80 | an import fails iff reading fails or decoding yields no size; a success reports the hash, `hash.ext` and the decoded size |
| ImageStorage.ImportNeverOverwrites | Gesto/Services/ImageStorageService.swift:73-75 | no existing file is replaced or removed; directories only grow |
| ImageStorage.ImportFailureWritesNothing | Gesto/Services/ImageStorageService.swift:56-67 | a failed import writes no file; only the board directory may appear |
| ImageStorage.ImportStoresOriginal | Gesto/Services/ImageStorageService.swift:71-77 | after a success the original is on disk, holding the source bytes unless the name already existed; at most the thumbnail was added besides |
| ImageStorage.ImportSameContentIsNoOp | Gesto/Services/ImageStorageService.swift:73-77 | re-importing the same bytes under the same extension reports the same image and changes no file |
| ImageStorage.DifferentExtensionsShareThumbnail | Gesto/Services/ImageStorageService.swift:69-70 | the same bytes under two extensions are stored twice but share one thumbnail |
| ImageStorage.DeleteImageRemovesBoth | Gesto/Services/ImageStorageService.swift:114-119 | the original and the thumbnail are gone; every other file is unchanged |
| ImageStorage.UnderBoardDirectory | Gesto/Services/ImageStorageService.swift:26-51 | a board's image directory holds exactly that board's originals; its thumbnail directory holds exactly its thumbnails |
| ImageStorage.DeleteBoardRemovesOnlyThatBoard | Gesto/Services/ImageStorageService.swift:121-126 | nothing remains under the board's two directories; other boards' files remain; deleting twice equals deleting once |
| ImageStorage.ImageStorageService.constructor | Gesto/Services/ImageStorageService.swift:6-9 | the service starts on the given disk with the given codecs |
| ImageStorage.ImageStorageService.CreateDirectory | Gesto/Services/ImageStorageService.swift:57 | creating a directory adds it and succeeds when it already exists |
| ImageStorage.ImageStorageService.ImportImage | Gesto/Services/ImageStorageService.swift:55-80 | the result and the new disk are those of `Import` |
| ImageStorage.ImageStorageService.GenerateThumbnail | Gesto/Services/ImageStorageService.swift:84-110 | the thumbnail directory is created; a thumbnail is written only when none exists and rendering succeeds; failure is silent |
| ImageStorage.ImageStorageService.DeleteImage | Gesto/Services/ImageStorageService.swift:114-119 | the new disk is `DeleteImageFiles` of the old one; missing files are not errors |
| ImageStorage.ImageStorageService.RemoveItem | Gesto/Services/ImageStorageService.swift:124 | removing a directory item removes its whole subtree |
| ImageStorage.ImageStorageService.DeleteBoardFiles | Gesto/Services/ImageStorageService.swift:121-126 | both board subtrees are removed; missing directories are not errors |
| ImageStorage.ImageStorageService.SupportedEntries | Gesto/Services/ImageStorageService.swift:136-142 | the enumerated entries with an allowed extension, in enumeration order |
| ImageStorage.ImageStorageService.CollectImageUrls | Gesto/Services/ImageStorageService.swift:130-149 | the loop returns exactly `Collected(urls)` |
| FileTree.CollectedConcat | Gesto/Services/ImageStorageService.swift:133-146 | the result for a list of inputs is each input's result, in input order |
| FileTree.CollectedMembership | Gesto/Services/ImageStorageService.swift:138-143 | a path is collected iff it is a candidate whose lowercased extension is allowed |
| FileTree.CollectedKeepsOrder | Gesto/Services/ImageStorageService.swift:130-149 | the result is a subsequence of the candidates in the order they are met |
| FileTree.WalkReachesNested | Gesto/Services/ImageStorageService.swift:136-137 | the enumeration reaches entries of nested directories |
| FileTree.SupportedByExtension | Gesto/Services/ImageStorageService.swift:138 | a file `stem.ext` is kept iff the stem is non-empty and lowercased `ext` is on the allow-list, wherever it sits |
| BoardDetail.ImportAll | Gesto/ViewModels/BoardDetailViewModel.swift:29-56 | the batch has one outcome per collected file |
| BoardDetail.OutcomesPartition | Gesto/ViewModels/BoardDetailViewModel.swift:29-56 | imported + duplicates + failures = number of files, so imported + duplicates never exceeds it |
| BoardDetail.AddedAreNew | Gesto/ViewModels/BoardDetailViewModel.swift:36-39 | no added image has a hash the board held before the batch; each added image is an outcome of the batch |
| BoardDetail.SameBatchDuplicatesBothAdded | Gesto/ViewModels/BoardDetailViewModel.swift:27 | the hash snapshot is not updated in the loop: two new files with equal content are both added |
| BoardDetail.ImportAllNeverOverwrites | Gesto/ViewModels/BoardDetailViewModel.swift:29-56 | a batch never replaces or removes a file |
| BoardDetail.ImportAllStoresOriginals | Gesto/ViewModels/BoardDetailViewModel.swift:29-56 | every successful file of a batch has its original on disk at the end |
| BoardDetail.ReadImportMessage | Gesto/ViewModels/BoardDetailViewModel.swift:60 | the message reads back as both counts, with "duplicate" singular exactly for one |
| BoardDetail.DeleteAllRemovesExactly | Gesto/ViewModels/BoardDetailViewModel.swift:66-69 | after deleting a selection none of its files remain; every other file is unchanged |
| BoardDetail.Selected | Gesto/ViewModels/BoardDetailViewModel.swift:65 | the filter keeps at most the board's images |
| BoardDetail.SelectedMembers | Gesto/ViewModels/BoardDetailViewModel.swift:65 | a board image is selected iff its id is in the set |
| BoardDetail.BoardDetailViewModel.constructor | Gesto/ViewModels/BoardDetailViewModel.swift:11-17 | not importing and no message |
| BoardDetail.BoardDetailViewModel.AddRecord | Gesto/ViewModels/BoardDetailViewModel.swift:41-51 | the record copies the import result, has `sortOrder` = the board's image count, joins the end of the board and bumps `updatedAt` |
| BoardDetail.BoardDetailViewModel.ImportOne | Gesto/ViewModels/BoardDetailViewModel.swift:33-55 | one file is imported; a record is added iff it succeeded and its hash is not in the snapshot |
| BoardDetail.BoardDetailViewModel.ImportEach | Gesto/ViewModels/BoardDetailViewModel.swift:25-56 | the counters equal the added and duplicate counts of `ImportAll`; the new records describe the added images in order, at positions count, count+1, ...; `updatedAt` moves iff something was imported |
| BoardDetail.BoardDetailViewModel.ImportImages | Gesto/ViewModels/BoardDetailViewModel.swift:19-62 | the snapshot is taken before the loop; `isImporting` ends false; the message is set iff duplicates > 0 and reports both counts |
| BoardDetail.BoardDetailViewModel.DeleteOne | Gesto/ViewModels/BoardDetailViewModel.swift:67-68 | the image's files go, then the image leaves the board |
| BoardDetail.BoardDetailViewModel.DeleteEach | Gesto/ViewModels/BoardDetailViewModel.swift:66-69 | the board loses exactly the given images, in order, and their files are deleted |
| BoardDetail.BoardDetailViewModel.DeleteImages | Gesto/ViewModels/BoardDetailViewModel.swift:64-71 | exactly the images whose id is in the set leave the board with their files; the rest keep their order; `updatedAt` is bumped |
| Session.Initial | Gesto/ViewModels/SessionViewModel.swift:37-49 | index 0, full countdown, not paused or finished; sequential keeps the images, shuffle is a permutation |
| Session.CurrentImage | Gesto/ViewModels/SessionViewModel.swift:23-26 | `images[currentIndex]` when the index is in range, else nil |
| Session.Progress | Gesto/ViewModels/SessionViewModel.swift:28-31 | 0 for a non-positive interval; 0 at a full countdown, 1 at zero, within [0,1] in between |
| Session.PauseToggled | Gesto/ViewModels/SessionViewModel.swift:55-62 | flips `isPaused`; pausing cancels the countdown, resuming restarts it from what was left |
| Session.Finished | Gesto/ViewModels/SessionViewModel.swift:81-84 | sets `isFinished` and cancels the countdown; nothing else changes |
| Session.NextSteps | Gesto/ViewModels/SessionViewModel.swift:64-72 | advances with a full countdown iff there is a later image; otherwise finishes with the index unchanged |
| Session.PreviousSteps | Gesto/ViewModels/SessionViewModel.swift:74-79 | steps back with a full countdown iff not at index 0; otherwise nothing changes |
| Session.MovesRestartTimer | Gesto/ViewModels/SessionViewModel.swift:71-78 | a move restarts a running countdown |
| Session.TickCountsDown | Gesto/ViewModels/SessionViewModel.swift:98-106 | a tick with time left sets `timeRemaining` to start value minus elapsed |
| Session.TickExpiresOnLast | Gesto/ViewModels/SessionViewModel.swift:101-104 | running out on the last image zeroes the time and finishes with all images completed |
| Session.TickExpiresAdvances | Gesto/ViewModels/SessionViewModel.swift:101-104 | running out earlier moves to the next image with a full countdown |
| Session.TogglePauseTwice | Gesto/ViewModels/SessionViewModel.swift:55-62 | two toggles restore the session, with the countdown restarted |
| Session.RunKeepsIndexInRange | Gesto/ViewModels/SessionViewModel.swift:64-79 | under any commands the index stays within the images (0 when there are none) |
| Session.RunKeepsFinished | Gesto/ViewModels/SessionViewModel.swift:81-84 | nothing resets `isFinished` |
| Session.RunKeepsCountdown | Gesto/ViewModels/SessionViewModel.swift:98-106 | with forward-moving time, `timeRemaining` stays within [0, interval] |
| Session.ReachableProgress | Gesto/ViewModels/SessionViewModel.swift:28-31 | the progress of any reachable session lies in [0,1] |
| Session.SessionViewModel.constructor | Gesto/ViewModels/SessionViewModel.swift:37-49 | the state is `Initial`; the configuration fields are copied |
| Session.SessionViewModel.Start | Gesto/ViewModels/SessionViewModel.swift:51-53 | the countdown starts from `timeRemaining` |
| Session.SessionViewModel.TogglePause | Gesto/ViewModels/SessionViewModel.swift:55-62 | the new state is `PauseToggled` of the old one |
| Session.SessionViewModel.NextImage | Gesto/ViewModels/SessionViewModel.swift:64-72 | the new state is `Advanced` of the old one |
| Session.SessionViewModel.PreviousImage | Gesto/ViewModels/SessionViewModel.swift:74-79 | the new state is `SteppedBack` of the old one |
| Session.SessionViewModel.Finish | Gesto/ViewModels/SessionViewModel.swift:81-84 | the new state is `Finished` of the old one |
| Session.SessionViewModel.Tick | Gesto/ViewModels/SessionViewModel.swift:96-106 | one wake-up of the countdown task gives `Ticked` of the old state |
| Practice.CountdownTotal | Gesto/Views/Session/PracticeView.swift:123 | `max(0, ceil(seconds))`: the least whole number of seconds not below the time left, never negative |
| Practice.TimeParts | Gesto/Views/Session/PracticeView.swift:124-125 | mins*60 + secs = total with secs < 60 |
| Practice.ReadFormatTime | Gesto/Views/Session/PracticeView.swift:122-127 | the countdown text ("M:SS" with padded seconds, or "Ns") reads back as exactly the total |
| Practice.FormatTimeNonPositive | Gesto/Views/Session/PracticeView.swift:123-126 | non-positive time shows "0s" |
| Practice.FormatTimePadded | Gesto/Views/Session/PracticeView.swift:126 | from a minute on the seconds are two digits |
| Practice.EscapeOnFinishedIgnored | Gesto/Views/Session/PracticeView.swift:57-58 | Escape on a finished session is ignored and changes nothing |
| Practice.EscapeConfirms | Gesto/Views/Session/PracticeView.swift:57-62 | Escape otherwise shows the confirmation and leaves the session paused, whatever its prior pause state |
| Practice.LettersMatchArrows | Gesto/Views/Session/PracticeView.swift:41-56 | "d" acts as the right arrow and "a" as the left arrow |
| Practice.KeysKeepState | Gesto/Views/Session/PracticeView.swift:37-62 | an ignored key changes nothing; no key hides the alert or revives a finished session |
| Practice.EscapeThenContinue | Gesto/Views/Session/PracticeView.swift:74-77 | Escape then "Continue" leaves the session running from the time left |
| Practice.EscapeThenEnd | Gesto/Views/Session/PracticeView.swift:78-80 | Escape then "End Session" finishes the session where it stood |
| Practice.PracticeView.constructor | Gesto/Views/Session/PracticeView.swift:10-13 | a fresh session view model in its initial state; no alert |
| Practice.HandOffExactlyOnce | Gesto/Views/Session/PracticeView.swift:68-73 | over any run of view-model calls, the step turning `isFinished` true (which calls `onEnd`) happens exactly once if the run finishes an unfinished session and never otherwise |
| Practice.PracticeView.OnAppear | Gesto/Views/Session/PracticeView.swift:63-67 | the countdown starts |
| Practice.PracticeView.OnKeyPress | Gesto/Views/Session/PracticeView.swift:37-62 | the result and new state are `KeyPressed` of the old state |
| Practice.PracticeView.Continue | Gesto/Views/Session/PracticeView.swift:75-77 | the alert closes and pause is toggled |
| Practice.PracticeView.EndSession | Gesto/Views/Session/PracticeView.swift:78-80 | the alert closes and the session finishes |
| TimerBar.FillFraction | Gesto/Views/Components/TimerBar.swift:13 | progress clamped to [0,1]: 0 below, 1 above, unchanged in between |
| TimerBar.FillWithinBar | Gesto/Views/Components/TimerBar.swift:13 | the fill lies between 0 and the bar width and equals width*progress for progress in [0,1] |
| TimerBar.FillMonotone | Gesto/Views/Components/TimerBar.swift:13 | more progress never shrinks the fill |
| TimerBar.ReachableFill | Gesto/Views/Components/TimerBar.swift:13 | for a reachable session the clamp never changes the progress |
| Setup.Insert | Gesto/Views/Session/SessionSetupSheet.swift:117 | inserting adds exactly the one image |
| Setup.InsertSorted | Gesto/Views/Session/SessionSetupSheet.swift:117 | inserting into an ascending list keeps it ascending |
| Setup.SortSpec | Gesto/Views/Session/SessionSetupSheet.swift:117 | the sort gives the same images, ascending by `sortOrder` |
| Setup.SelectedCount | Gesto/Views/Session/SessionSetupSheet.swift:116 | all images when "use all" is on, else min(imageCount, board count); never more than the board holds |
| Setup.References | Gesto/Views/Session/SessionSetupSheet.swift:123 | each image becomes its (id, filename) pair, in order |
| Setup.SelectionSpec | Gesto/Views/Session/SessionSetupSheet.swift:116-123 | the selection is the first `count` images in ascending `sortOrder`; no left-out image comes earlier than a chosen one; chosen and left-out images together are the board's images |
| Setup.SelectionUsesAll | Gesto/Views/Session/SessionSetupSheet.swift:116-118 | with "use all" on, every image of the board is in the session |
| Setup.PresetLabelsAreIntervals | Gesto/Views/Session/SessionSetupSheet.swift:17-19 | each preset's label is `formatInterval` of its seconds |
| Setup.StoredOrder | Gesto/Views/Session/SessionSetupSheet.swift:43 | an unrecognised stored order falls back to shuffle |
| Setup.StoredOrderRoundTrip | Gesto/Views/Session/SessionSetupSheet.swift:43 | a stored raw value restores its order |
| Setup.Defaults.constructor | Gesto/Views/Session/SessionSetupSheet.swift:14-15 | with nothing stored yet, the defaults are 60 seconds and "shuffle" |
| Setup.SessionSetupSheet.constructor | Gesto/Views/Session/SessionSetupSheet.swift:8-13 | the declared initial state |
| Setup.SessionSetupSheet.OnAppear | Gesto/Views/Session/SessionSetupSheet.swift:41-45 | restores the last timer and order and sets `imageCount` to min(20, board count) |
| Setup.SessionSetupSheet.ChoosePreset | Gesto/Views/Session/SessionSetupSheet.swift:56-60 | sets the preset's seconds and clears the custom flag and text |
| Setup.SessionSetupSheet.CustomSecondsChanged | Gesto/Views/Session/SessionSetupSheet.swift:69-74 | only a positive parsed value sets the interval and the custom flag; otherwise both are unchanged |
| Setup.SessionSetupSheet.StartSession | Gesto/Views/Session/SessionSetupSheet.swift:112-126 | stores the timer and order as last-used; the configuration carries the board's id and name, the selection, the timer and the order |
| Summary.ImagesCompletedBounds | Gesto/Views/Session/SessionSummaryView.swift:18-22 | for a session with images the count lies between one and all; it is all iff the session completed or stopped on the last image |
| Summary.ImagesCompletedEmpty | Gesto/Views/Session/SessionSummaryView.swift:18-22 | with no images the count is 0 only if the countdown ran out |
| Summary.ReadImagesRowRoundTrip | Gesto/Views/Session/SessionSummaryView.swift:50 | the Images row reads back as the completed count and the session's size |
| Summary.OrderLabelLowered | Gesto/Views/Session/SessionSummaryView.swift:54-55 | the Order label, lowercased, is the order's raw value |
| Summary.AtMostOneSave | Gesto/Views/Session/SessionSummaryView.swift:98-100 | however often saving is called, at most one record is stored: the first call's |
| Summary.SessionSummaryView.constructor | Gesto/Views/Session/SessionSummaryView.swift:5-10 | nothing saved yet |
| Summary.SessionSummaryView.SaveIfNeeded | Gesto/Views/Session/SessionSummaryView.swift:98-114 | one `SaveStep`: the record copies the view model's fields, with `imagesCompleted` as its image count; boards are untouched |
| Summary.SessionSummaryView.Done | Gesto/Views/Session/SessionSummaryView.swift:68-71 | saves if needed, then asks to close |
| Summary.SessionSummaryView.Restart | Gesto/Views/Session/SessionSummaryView.swift:62-65 | saves if needed, then asks to restart |
| Content.SidebarRoundTrip | Gesto/Views/ContentView.swift:3-12 | raw values "Library"/"History" decode back; the labels and icons differ |
| Content.AllSidebarItemsListed | Gesto/Views/ContentView.swift:3 | `allCases` lists both items once |
| Content.NoSelectionShowsLibrary | Gesto/Views/ContentView.swift:35-40 | the library is shown iff the selection is nil or `.library` |
| Content.StartFromAnyPhase | Gesto/Views/ContentView.swift:75-79 | `startSession` moves any phase to practising the new configuration |
| Content.PracticeCycle | Gesto/Views/ContentView.swift:52-69 | ending practice shows its summary with the same configuration; Done goes idle; Restart practises the same configuration |
| Content.SummaryFollowsPractice | Gesto/Views/ContentView.swift:52-57 | a summary is entered only from practice, with that practice's configuration |
| Content.PhasesComeFromStarts | Gesto/Views/ContentView.swift:48-79 | after any events, a practice or summary on screen has a started configuration or the one already shown |
| Content.PhasesFromIdle | Gesto/Views/ContentView.swift:48-79 | from idle, every configuration on screen is one some `startSession` passed |
| Content.ContentView.constructor | Gesto/Views/ContentView.swift:22-23 | library selected, idle |
| Content.ContentView.Select | Gesto/Views/ContentView.swift:28 | the selection changes; the phase does not |
| Content.ContentView.Handle | Gesto/Views/ContentView.swift:48-79 | the phase becomes `NextPhase` of the old phase and the event |
| Formatting.DurationPartsRecombine | Gesto/Utilities/Formatting.swift:4-7 | for a non-negative total the hours, minutes < 60 and seconds < 60 recombine to the total |
| Formatting.DurationPartsOfNegative | Gesto/Utilities/Formatting.swift:4-7 | for a negative total no part is positive, so the "Ns" branch is taken |
| Formatting.ReadFormatDuration | Gesto/Utilities/Formatting.swift:3-14 | the text reads back as the whole seconds, except that from an hour on the seconds within the minute are dropped |
| Formatting.ReadDurationText | Gesto/Utilities/Formatting.swift:8-13 | each of "Hh MMm", "Mm SSs" and "Ns" reads back as its seconds |
| Formatting.DurationMinutesPadded | Gesto/Utilities/Formatting.swift:9 | with hours the minutes are two digits |
| Formatting.ReadFormatInterval | Gesto/Utilities/Formatting.swift:16-24 | "Mm Ss", "Mm" or "Ns" reads back as exactly the whole seconds |
| Formatting.FormatIntervalInjective | Gesto/Utilities/Formatting.swift:16-24 | different whole-second intervals never display alike |
| Formatting.IntervalSecondsUnpadded | Gesto/Utilities/Formatting.swift:21 | seconds are not zero-padded |
| Formatting.FormattersTruncate | Gesto/Utilities/Formatting.swift:4-17 | both formatters see only the truncated whole seconds |
| SwiftNumbers.Trunc | Gesto/Utilities/Formatting.swift:4 | `Int(x)` rounds toward zero |
| SwiftNumbers.Ceil | Gesto/Views/Session/PracticeView.swift:123 | `ceil` is the least integer not below x |
| SwiftNumbers.QuotRem | Gesto/Utilities/Formatting.swift:5-7 | Swift's `/` and `%` recombine; the remainder has the dividend's sign |
| Focal.VerticalOffset | Gesto/Views/BoardDetail/ImageThumbnail.swift:62-78 | an offset is applied iff overflow > 1 |
| Focal.ScaleCovers | Gesto/Views/BoardDetail/ImageThumbnail.swift:56-58 | the larger ratio makes the image cover the frame in both directions and meet it in one |
| Focal.OffsetInRange | Gesto/Views/BoardDetail/ImageThumbnail.swift:66 | the offset lies in [-overflow, 0], so an image whose top edge sits at the offset still spans the frame |
| Focal.OffsetCentresFocalRow | Gesto/Views/BoardDetail/ImageThumbnail.swift:64-66 | an in-range desired offset is applied unchanged and puts the focal row at the frame's centre |
| Focal.OffsetAtExtremes | Gesto/Views/BoardDetail/ImageThumbnail.swift:64-66 | focalY 0 top-aligns and focalY 1 bottom-aligns |
| Focal.OffsetMonotone | Gesto/Views/BoardDetail/ImageThumbnail.swift:64-66 | the offset never increases as focalY grows |
| Focal.DrawnTopMisplaces | Gesto/Views/BoardDetail/ImageThumbnail.swift:62-72 | as written (centred by the frame, then offset), an in-range focal row lands half an overflow above the centre, and focalY 1 leaves half an overflow blank at the bottom |
| Focal.DrawnTopExample | Gesto/Views/BoardDetail/ImageThumbnail.swift:62-72 | a 100x200 image in a 100x100 frame with focalY 1 is drawn from -150 to 50, covering only the top half |
| Focal.IntendedTop | Gesto/Views/BoardDetail/ImageThumbnail.swift:62-78 | top-aligned placement: no shift unless the image overflows by more than a point |
| Focal.IntendedTopCovers | Gesto/Views/BoardDetail/ImageThumbnail.swift:62-78 | placed top-aligned at the offset, the image always spans the frame, and an in-range focal row sits on the frame's centre |
| Library.BoardName | Gesto/Views/Library/LibraryView.swift:177-178 | the trimmed text, or nothing when it trims to empty |
| Library.BoardNameSpec | Gesto/Views/Library/LibraryView.swift:177-178 | a name is refused iff the text is all whitespace; an accepted name is non-empty and trimmed |
| Library.MatchingMembers | Gesto/Views/Library/LibraryView.swift:18 | a board is shown iff it is stored and its name contains the text |
| Library.MatchingIsSubsequence | Gesto/Views/Library/LibraryView.swift:18 | the shown boards keep the stored order |
| Library.MatchingNewestFirst | Gesto/Views/Library/LibraryView.swift:7-18 | filtering keeps newest-first order |
| Library.FilteredBoardsSpec | Gesto/Views/Library/LibraryView.swift:16-19 | an empty search shows every board in query order; any search shows a newest-first subsequence of exactly the matching boards |
| Library.LibraryView.constructor | Gesto/Views/Library/LibraryView.swift:5-13 | empty search and form; nothing pending |
| Library.LibraryView.ShowNewBoardForm | Gesto/Views/Library/LibraryView.swift:163-169 | the form is shown empty |
| Library.LibraryView.CancelNewBoard | Gesto/Views/Library/LibraryView.swift:171-174 | the form is hidden and emptied |
| Library.LibraryView.CreateBoard | Gesto/Views/Library/LibraryView.swift:176-187 | nothing happens iff the Create button is disabled; otherwise one board with the trimmed name is stored, the form closes and the new id is pushed |
| Library.LibraryView.BeginRename | Gesto/Views/Library/LibraryView.swift:48-51 | the rename field starts from the board's name |
| Library.LibraryView.RenameBoard | Gesto/Views/Library/LibraryView.swift:195-202 | `renameBoard` itself: with a pending board and a non-blank trimmed name, the board takes that name and a new `updatedAt`, and nothing is pending; otherwise it changes nothing (the alert's dismissal is `RenameButton`); the view's other fields are kept |
| Library.LibraryView.BeginDelete | Gesto/Views/Library/LibraryView.swift:53-55 | the board awaits confirmation |
| Library.LibraryView.DeleteBoard | Gesto/Views/Library/LibraryView.swift:189-193 | the pending board leaves the store and nothing is pending; a no-op when nothing is pending |
| Library.LibraryView.RenameButton | Gesto/Views/Library/LibraryView.swift:65-72 | the alert's Rename runs `renameBoard`, and the dismissal then clears the pending board, so a blank name closes the alert and keeps the old name |
| Library.LibraryView.CancelRename | Gesto/Views/Library/LibraryView.swift:70 | nothing is pending and no board changes |
| Library.LibraryView.DeleteButton | Gesto/Views/Library/LibraryView.swift:73-78 | the alert's Delete removes the pending board from the store; nothing is pending afterwards |
| Library.LibraryView.CancelDelete | Gesto/Views/Library/LibraryView.swift:77 | nothing is pending and the store is unchanged |
| Library.NewBoardSheet.constructor | Gesto/Views/Library/NewBoardSheet.swift:6 | an empty name; not dismissed |
| Library.NewBoardSheet.CreateBoard | Gesto/Views/Library/NewBoardSheet.swift:64-70 | a blank name stores nothing and keeps the sheet; otherwise exactly one board with the trimmed name is stored and the sheet is dismissed |

## Findings

| source | as written | input that shows it | evidently intended | confidence | as-written member | corrected member |
|---|---|---|---|---|---|---|
| Gesto/Views/BoardDetail/ImageThumbnail.swift:62-72 | the filled image is centred by `.frame(width:height:)` and then shifted by `.offset(y: clamped)`, though `clamped` is computed for an image whose top sits at the frame's top | a 100x200 image in a 100x100 frame with focalY 1: overflow 100, offset -100, the image is drawn from -150 to 50 and the lower half of the frame is blank | the offset applied to a top-aligned image (`.frame(..., alignment: .top)`), so the image always covers the frame and the focal row sits at the centre | medium; reading of SwiftUI's default frame alignment, not executed | Focal.DrawnTopMisplaces | Focal.IntendedTopCovers |

## Left out

- Real file I/O has no model. Reading a source can fail (`ReadFailed`); creating a directory, writing a file and other disk failures are assumed to succeed.
- Intermediate directories are not tracked: `createDirectory(withIntermediateDirectories:)` adds only the named directory.
- SHA-256, ImageIO's size decoding and thumbnail rendering and encoding are uninterpreted `Codecs` fields. The hex encoding of the digest is modelled.
- Directory enumeration order is that of the `FileTree.Node` children. Hidden files and symbolic links have no special treatment in enumeration. The extension rule does treat a leading dot as part of the name, so ".png" is skipped. Foundation's other `pathExtension` rules are not modelled.
- Security-scoped resource access in `importImages` is plumbing with no effect on the model.
- `SessionViewModel.Tick` replaces the concurrent timer task. The 33 ms sleep, cancellation and actor isolation are replaced by one wake-up step with the elapsed time as input. `Session.SessionState.timer` records only the running task's start value.
- The `DispatchQueue.asyncAfter` delays are dropped: focusing the new-board field, pushing the new board's id and starting the session after the sheet closes. The push happens at once.
- Full-screen entry and exit, focus, animations and all layout are SwiftUI rendering.
- `Summary.RecordOf`: one `now` gives both `endedAt` and `duration`. The source reads `Date()` separately for each.
- `BoardDetail.BoardDetailViewModel.ImportImages` (and `ImportEach`, `ImportOne`, `AddRecord`) take one `now` for the whole batch. The app reads `Date()` for each record's `addedAt` (Gesto/Models/ReferenceImage.swift:23) and for each `updatedAt` bump (Gesto/ViewModels/BoardDetailViewModel.swift:51). So the model gives every image of a batch the same `addedAt`, where the app's values increase through the batch.
- `Models.Board.constructor`: `createdAt` and `updatedAt` take the same `now`. The source reads `Date()` twice.
- `Text.Lower` lowercases ASCII letters only. Swift's `lowercased()` is full Unicode case mapping.
- `Text.Trim` trims tab and the Unicode space separators (`.whitespaces`). Other Unicode whitespace is not covered.
- `Library.FilteredBoards`: `localizedCaseInsensitiveContains` is a parameter. Its locale-aware matching is not modelled.
- `Library.FilteredBoardsSpec` assumes the stored list is already newest first. The `@Query` sort by `updatedAt` is done by the store.
- `Setup.SortBySortOrder` is a stable insertion sort. Swift's `sorted(by:)` does not promise stability, so images with equal `sortOrder` may come out in another order in the app.
- `Setup.SessionSetupSheet.CustomSecondsChanged`: `TimeInterval(customSeconds)` is given as its parse result.
- The Stepper's `1...count` range and the Toggle and Picker bindings are plain field assignments, so `Setup.SessionSetupSheet` does not enforce the Stepper range.
- `Session.Initial`: the shuffle is any permutation of the configured images, supplied by the caller; randomness is not modelled.
- Reals are exact. `Int(x)` on a non-finite or out-of-range value traps in Swift and is not modelled. Floating-point rounding, infinities and NaN in the focal crop and the timer bar are not modelled either.
- `Setup.SessionSetupSheet.CustomSecondsChanged` accepts any positive parse. In the app, text such as "inf" or "1e300" therefore becomes the interval, and `Int(ceil(seconds))` in `formatTime` (Gesto/Views/Session/PracticeView.swift:123) then traps. The model's reals are finite and unbounded, so `Practice.CountdownTotal` never traps.
- `BoardDetail.BoardDetailViewModel.AddRecord` gives each new record the default `focalY` of 0.5. No face detection is part of this model.
- Gesto/ViewModels/BoardDetailViewModel.swift:47 reads `result.focalY`. But `ImportedImage` (Gesto/Services/ImageStorageService.swift:164-169) declares no `focalY` field, so that line does not compile against the `ImportedImage` declared there.
- The focal lemmas other than `Focal.DrawnTop*` read the offset with the image's top edge at the frame's top (`Focal.IntendedTop`). See the Findings for what the centred placement as written does. SwiftUI's layout beyond this vertical placement is not modelled.
- Key presses while the confirmation alert is up go to the alert in the app. `Practice.KeyPressed` still describes the handlers.
- Fresh ids are parameters. Board ids must be new (`Library.LibraryView.CreateBoard` requires it). Image and session-record ids are not checked for uniqueness.
- The sidebar `List` and navigation stack are not modelled beyond the selection and the detail shown.
- `LibraryView.deleteBoard` does not delete the board's files; only the store's cascade is modelled.
