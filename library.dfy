/**
 * The board library: the search filter over the stored boards, the inline
 * "new board" form, renaming and deleting boards, and the separate
 * new-board sheet. Both create paths and rename share one name rule: the
 * text is trimmed of whitespace and a blank result is refused.
 */
module Library {
  import opened Wrappers
  import opened Text
  import opened Models
  import Seqs

  // ---- The name rule ------------------------------------------------------------------

  /** The name a text gives a board: its trimmed form, unless that is empty. */
  function BoardName(text: string): (r: Option<string>)
    ensures r.None? <==> Trim(text) == []
    ensures r.Some? ==> r.value == Trim(text)
  {
    var name := Trim(text);
    if name == [] then None else Some(name)
  }

  /** A text is refused exactly when it is all whitespace; an accepted name is non-empty and already trimmed. */
  lemma BoardNameSpec(text: string)
    ensures BoardName(text).None? <==> AllSpace(text)
    ensures BoardName(text).Some? ==> BoardName(text).value != [] && Trim(BoardName(text).value) == BoardName(text).value
  {
    TrimEmptyIff(text);
    TrimIdempotent(text);
  }

  // ---- The filter ----------------------------------------------------------------------

  /** The boards whose name contains `text` by the given test, in their original order. */
  function Matching(boards: seq<Board>, text: string, contains: (string, string) -> bool): (r: seq<Board>)
    reads boards
    ensures |r| <= |boards|
  {
    if boards == [] then []
    else (if contains(boards[0].name, text) then [boards[0]] else []) + Matching(boards[1..], text, contains)
  }

  /**
   * `filteredBoards`: all boards for an empty search, else those whose name
   * contains the search text; `contains` stands for `localizedCaseInsensitiveContains`.
   */
  function FilteredBoards(boards: seq<Board>, searchText: string, contains: (string, string) -> bool): seq<Board>
    reads boards
  {
    if searchText == [] then boards else Matching(boards, searchText, contains)
  }

  /** Newest `updatedAt` first, the order the query delivers. */
  ghost predicate NewestFirst(boards: seq<Board>)
    reads boards
  {
    forall i, j :: 0 <= i < j < |boards| ==> boards[i].updatedAt >= boards[j].updatedAt
  }

  /** A board is shown for a search exactly when it is stored and its name matches. */
  lemma {:induction false} MatchingMembers(boards: seq<Board>, text: string, contains: (string, string) -> bool)
    ensures forall k :: 0 <= k < |Matching(boards, text, contains)| ==>
      Matching(boards, text, contains)[k] in boards && contains(Matching(boards, text, contains)[k].name, text)
    ensures forall k :: 0 <= k < |boards| && contains(boards[k].name, text) ==> boards[k] in Matching(boards, text, contains)
  {
    if boards != [] {
      MatchingMembers(boards[1..], text, contains);
      var r, rest := Matching(boards, text, contains), Matching(boards[1..], text, contains);
      var head := if contains(boards[0].name, text) then [boards[0]] else [];
      assert r == head + rest;
      forall k | 0 <= k < |r| ensures r[k] in boards && contains(r[k].name, text) {
        if k >= |head| {
          assert r[k] == rest[k - |head|];
        }
      }
      forall k | 0 <= k < |boards| && contains(boards[k].name, text) ensures boards[k] in r {
        if k > 0 {
          assert boards[k] == boards[1..][k - 1];
        }
      }
    }
  }

  /** The shown boards keep the stored order: they are a subsequence of it. */
  lemma {:induction false} MatchingIsSubsequence(boards: seq<Board>, text: string, contains: (string, string) -> bool)
    ensures Seqs.IsSubsequence(Matching(boards, text, contains), boards)
  {
    if boards != [] {
      MatchingIsSubsequence(boards[1..], text, contains);
      var r := Matching(boards, text, contains);
      if contains(boards[0].name, text) {
        assert r[0] == boards[0] && r[1..] == Matching(boards[1..], text, contains);
      } else {
        assert r == Matching(boards[1..], text, contains);
      }
    }
  }

  /** Filtering keeps the newest-first order. */
  lemma {:induction false} MatchingNewestFirst(boards: seq<Board>, text: string, contains: (string, string) -> bool)
    requires NewestFirst(boards)
    ensures NewestFirst(Matching(boards, text, contains))
  {
    if boards != [] {
      var rest := Matching(boards[1..], text, contains);
      assert NewestFirst(boards[1..]) by {
        forall i, j | 0 <= i < j < |boards[1..]| ensures boards[1..][i].updatedAt >= boards[1..][j].updatedAt {
          assert boards[1..][i] == boards[i + 1] && boards[1..][j] == boards[j + 1];
        }
      }
      MatchingNewestFirst(boards[1..], text, contains);
      if contains(boards[0].name, text) {
        MatchingMembers(boards[1..], text, contains);
        var r := [boards[0]] + rest;
        forall i, j | 0 <= i < j < |r| ensures r[i].updatedAt >= r[j].updatedAt {
          assert r[j] == rest[j - 1] && rest[j - 1] in rest;
          if i == 0 {
            HeadIsNewest(boards, r[j]);
          } else {
            assert r[i] == rest[i - 1];
          }
        }
      }
    }
  }

  lemma HeadIsNewest(boards: seq<Board>, b: Board)
    requires NewestFirst(boards) && boards != [] && b in boards[1..]
    ensures boards[0].updatedAt >= b.updatedAt
  {
    var k :| 0 <= k < |boards[1..]| && boards[1..][k] == b;
    assert boards[k + 1] == b;
  }

  /** An empty search shows every board in query order; any search shows a newest-first subsequence of exactly the matching boards. */
  lemma FilteredBoardsSpec(boards: seq<Board>, searchText: string, contains: (string, string) -> bool)
    requires NewestFirst(boards)
    ensures searchText == [] ==> FilteredBoards(boards, searchText, contains) == boards
    ensures searchText != [] ==> forall b :: b in FilteredBoards(boards, searchText, contains) <==> b in boards && contains(b.name, searchText)
    ensures Seqs.IsSubsequence(FilteredBoards(boards, searchText, contains), boards)
    ensures NewestFirst(FilteredBoards(boards, searchText, contains))
  {
    if searchText == [] {
      SubsequenceOfItself(boards);
    } else {
      MatchingMembers(boards, searchText, contains);
      MatchingIsSubsequence(boards, searchText, contains);
      MatchingNewestFirst(boards, searchText, contains);
    }
  }

  lemma {:induction false} SubsequenceOfItself<T>(s: seq<T>)
    ensures Seqs.IsSubsequence(s, s)
  {
    if s != [] {
      SubsequenceOfItself(s[1..]);
    }
  }

  // ---- The library view -----------------------------------------------------------------

  class LibraryView {
    const context: ModelContext
    var searchText: string
    var showingNewBoard: bool
    var newBoardName: string
    var boardToRename: Board?
    var renameText: string
    var boardToDelete: Board?
    /** The navigation path's board ids, innermost last. */
    var navigationPath: seq<Uuid>

    constructor (context: ModelContext, navigationPath: seq<Uuid>)
      ensures this.context == context && this.navigationPath == navigationPath
      ensures searchText == [] && !showingNewBoard && newBoardName == []
      ensures boardToRename == null && renameText == [] && boardToDelete == null
    {
      this.context := context;
      this.navigationPath := navigationPath;
      searchText := [];
      showingNewBoard := false;
      newBoardName := [];
      boardToRename := null;
      renameText := [];
      boardToDelete := null;
    }

    /** The Create button's `disabled` rule. */
    predicate CreateDisabled()
      reads this
    {
      Trim(newBoardName) == []
    }

    /** `showNewBoardForm`: an empty form is shown. */
    method ShowNewBoardForm()
      modifies this
      ensures showingNewBoard && newBoardName == []
      ensures searchText == old(searchText) && navigationPath == old(navigationPath)
      ensures boardToRename == old(boardToRename) && boardToDelete == old(boardToDelete) && renameText == old(renameText)
    {
      newBoardName := [];
      showingNewBoard := true;
    }

    /** `cancelNewBoard`: the form is hidden and emptied. */
    method CancelNewBoard()
      modifies this
      ensures !showingNewBoard && newBoardName == []
      ensures searchText == old(searchText) && navigationPath == old(navigationPath)
      ensures boardToRename == old(boardToRename) && boardToDelete == old(boardToDelete) && renameText == old(renameText)
    {
      showingNewBoard := false;
      newBoardName := [];
    }

    /**
     * `createBoard` (the Create button and the field's submit): a blank name
     * does nothing; otherwise a board with the trimmed name is stored, the
     * form closes, and the new board is opened. `newId` and `now` are the
     * fresh `UUID()` and the `Date()` read.
     */
    method CreateBoard(newId: Uuid, now: Time) returns (created: Board?)
      requires context.Valid() && newId !in context.BoardIds()
      modifies this, context
      ensures context.Valid() && context.sessions == old(context.sessions)
      ensures created == null <==> old(CreateDisabled())
      ensures created == null ==>
        && context.boards == old(context.boards) && showingNewBoard == old(showingNewBoard)
        && newBoardName == old(newBoardName) && navigationPath == old(navigationPath)
      ensures created != null ==>
        && fresh(created) && Some(created.name) == BoardName(old(newBoardName))
        && created.id == newId && created.images == [] && created.color == None
        && created.createdAt == now && created.updatedAt == now
        && context.boards == old(context.boards) + [created]
        && !showingNewBoard && newBoardName == [] && navigationPath == old(navigationPath) + [newId]
      ensures searchText == old(searchText) && boardToRename == old(boardToRename)
      ensures boardToDelete == old(boardToDelete) && renameText == old(renameText)
    {
      var name := BoardName(newBoardName);
      if name.None? {
        return null;
      }
      created := new Board(newId, name.value, now);
      context.InsertBoard(created);
      showingNewBoard := false;
      newBoardName := [];
      navigationPath := navigationPath + [newId];
    }

    /** The context menu's "Rename": the field starts from the current name. */
    method BeginRename(board: Board)
      modifies this
      ensures boardToRename == board && renameText == board.name
      ensures boardToDelete == old(boardToDelete) && newBoardName == old(newBoardName)
      ensures showingNewBoard == old(showingNewBoard) && navigationPath == old(navigationPath)
      ensures searchText == old(searchText)
    {
      renameText := board.name;
      boardToRename := board;
    }

    /**
     * `renameBoard`: with a pending board and a non-blank trimmed name the
     * board takes that name and a new `updatedAt`, and nothing is pending
     * any more; otherwise nothing changes.
     */
    method RenameBoard(now: Time)
      modifies this, boardToRename
      ensures old(boardToRename) == null || BoardName(old(renameText)).None? ==>
        boardToRename == old(boardToRename)
        && (old(boardToRename) != null ==>
              old(boardToRename).name == old(boardToRename.name) && old(boardToRename).updatedAt == old(boardToRename.updatedAt))
      ensures old(boardToRename) != null && BoardName(old(renameText)).Some? ==>
        && Some(old(boardToRename).name) == BoardName(old(renameText))
        && old(boardToRename).updatedAt == now && boardToRename == null
      ensures old(boardToRename) != null ==>
        old(boardToRename).images == old(boardToRename.images) && old(boardToRename).color == old(boardToRename.color)
      ensures renameText == old(renameText) && boardToDelete == old(boardToDelete)
      ensures newBoardName == old(newBoardName) && navigationPath == old(navigationPath)
      ensures searchText == old(searchText) && showingNewBoard == old(showingNewBoard)
    {
      var board := boardToRename;
      if board == null {
        return;
      }
      var name := BoardName(renameText);
      if name.None? {
        return;
      }
      board.name := name.value;
      board.updatedAt := now;
      boardToRename := null;
    }

    /** The context menu's "Delete": the board waits for confirmation. */
    method BeginDelete(board: Board)
      modifies this
      ensures boardToDelete == board && boardToRename == old(boardToRename)
      ensures newBoardName == old(newBoardName) && navigationPath == old(navigationPath)
      ensures searchText == old(searchText) && showingNewBoard == old(showingNewBoard) && renameText == old(renameText)
    {
      boardToDelete := board;
    }

    /** `deleteBoard`: the pending board, if any, leaves the store and nothing is pending. */
    method DeleteBoard()
      requires context.Valid()
      modifies this, context
      ensures context.Valid() && context.sessions == old(context.sessions)
      ensures boardToDelete == null
      ensures old(boardToDelete) == null ==> context.boards == old(context.boards)
      ensures old(boardToDelete) != null ==> context.boards == Seqs.Filter(old(context.boards), x => x != old(boardToDelete))
      ensures boardToRename == old(boardToRename) && newBoardName == old(newBoardName)
      ensures navigationPath == old(navigationPath)
      ensures searchText == old(searchText) && showingNewBoard == old(showingNewBoard) && renameText == old(renameText)
    {
      var board := boardToDelete;
      if board == null {
        return;
      }
      context.DeleteBoard(board);
      boardToDelete := null;
    }

    // The two alerts. Each is shown while its board is pending; once a button's
    // action has run the alert is dismissed, and the `isPresented` binding's
    // setter then clears the pending board.

    /** The rename alert's "Rename": `renameBoard`, then the dismissal clears the pending board even when the name was blank. */
    method RenameButton(now: Time)
      modifies this, boardToRename
      ensures boardToRename == null
      ensures old(boardToRename) != null && BoardName(old(renameText)).Some? ==>
        Some(old(boardToRename).name) == BoardName(old(renameText)) && old(boardToRename).updatedAt == now
      ensures old(boardToRename) != null && BoardName(old(renameText)).None? ==>
        old(boardToRename).name == old(boardToRename.name) && old(boardToRename).updatedAt == old(boardToRename.updatedAt)
      ensures old(boardToRename) != null ==>
        old(boardToRename).images == old(boardToRename.images) && old(boardToRename).color == old(boardToRename.color)
      ensures renameText == old(renameText) && boardToDelete == old(boardToDelete)
      ensures newBoardName == old(newBoardName) && navigationPath == old(navigationPath)
      ensures searchText == old(searchText) && showingNewBoard == old(showingNewBoard)
    {
      RenameBoard(now);
      boardToRename := null;
    }

    /** The rename alert's "Cancel": nothing is pending and no board changes. */
    method CancelRename()
      modifies this
      ensures boardToRename == null
      ensures renameText == old(renameText) && boardToDelete == old(boardToDelete)
      ensures newBoardName == old(newBoardName) && navigationPath == old(navigationPath)
      ensures searchText == old(searchText) && showingNewBoard == old(showingNewBoard)
    {
      boardToRename := null;
    }

    /** The delete alert's "Delete": `deleteBoard`; the dismissal finds nothing pending. */
    method DeleteButton()
      requires context.Valid()
      modifies this, context
      ensures context.Valid() && context.sessions == old(context.sessions)
      ensures boardToDelete == null
      ensures old(boardToDelete) == null ==> context.boards == old(context.boards)
      ensures old(boardToDelete) != null ==> context.boards == Seqs.Filter(old(context.boards), x => x != old(boardToDelete))
      ensures boardToRename == old(boardToRename) && newBoardName == old(newBoardName)
      ensures navigationPath == old(navigationPath)
      ensures searchText == old(searchText) && showingNewBoard == old(showingNewBoard) && renameText == old(renameText)
    {
      DeleteBoard();
      boardToDelete := null;
    }

    /** The delete alert's "Cancel": nothing is pending and the store is unchanged. */
    method CancelDelete()
      modifies this
      ensures boardToDelete == null
      ensures boardToRename == old(boardToRename) && newBoardName == old(newBoardName)
      ensures navigationPath == old(navigationPath) && context.boards == old(context.boards)
      ensures searchText == old(searchText) && showingNewBoard == old(showingNewBoard) && renameText == old(renameText)
    {
      boardToDelete := null;
    }
  }

  // ---- The new-board sheet --------------------------------------------------------------

  class NewBoardSheet {
    const context: ModelContext
    var boardName: string
    var dismissed: bool

    constructor (context: ModelContext)
      ensures this.context == context && boardName == [] && !dismissed
    {
      this.context := context;
      boardName := [];
      dismissed := false;
    }

    /** The "Create Board" button's `disabled` rule. */
    predicate CreateDisabled()
      reads this
    {
      Trim(boardName) == []
    }

    /**
     * `createBoard` (the button and the field's submit): a blank name leaves
     * the sheet open and stores nothing; otherwise one board with the trimmed
     * name is stored and the sheet is dismissed.
     */
    method CreateBoard(newId: Uuid, now: Time) returns (created: Board?)
      requires context.Valid() && newId !in context.BoardIds()
      modifies this, context
      ensures context.Valid() && context.sessions == old(context.sessions)
      ensures created == null <==> old(CreateDisabled())
      ensures dismissed <==> created != null || old(dismissed)
      ensures created == null ==> context.boards == old(context.boards)
      ensures created != null ==>
        && fresh(created) && Some(created.name) == BoardName(old(boardName))
        && created.id == newId && created.images == [] && created.color == None
        && created.createdAt == now && created.updatedAt == now
        && context.boards == old(context.boards) + [created]
      ensures boardName == old(boardName)
    {
      var name := BoardName(boardName);
      if name.None? {
        return null;
      }
      created := new Board(newId, name.value, now);
      context.InsertBoard(created);
      dismissed := true;
    }
  }
}
