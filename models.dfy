/**
 * The persisted records: boards, their reference images, finished-session
 * records, and the configuration a practice session is started from.
 * The SwiftData store is an in-memory `ModelContext` holding boards and session
 * records; a board's images live in its `images` list.
 */
module Models {
  import opened Wrappers
  import Seqs

  /** A UUID, in its canonical `uuidString` form. */
  type Uuid = string

  /** A `Date`, as seconds since a fixed reference instant. */
  type Time = real

  // ---- PlaybackOrder ---------------------------------------------------------

  datatype PlaybackOrder = Shuffle | Sequential

  /** The enum's `rawValue`. */
  function OrderRawValue(o: PlaybackOrder): (s: string)
    ensures s == "shuffle" || s == "sequential"
  {
    match o
    case Shuffle => "shuffle"
    case Sequential => "sequential"
  }

  /** The enum's failable `init(rawValue:)`. */
  function OrderFromRawValue(s: string): (r: Option<PlaybackOrder>)
    ensures r.Some? <==> s == "shuffle" || s == "sequential"
  {
    if s == "shuffle" then Some(Shuffle)
    else if s == "sequential" then Some(Sequential)
    else None
  }

  /** Decoding yields an order exactly for that order's raw value. */
  lemma OrderRawValueRoundTrip(o: PlaybackOrder, s: string)
    ensures OrderFromRawValue(s) == Some(o) <==> s == OrderRawValue(o)
  {
  }

  // ---- Session configuration and record --------------------------------------

  /** `SessionConfiguration.ImageReference`. */
  datatype ImageReference = ImageReference(id: Uuid, filename: string)

  datatype SessionConfiguration = SessionConfiguration(
    boardId: Uuid,
    boardName: string,
    images: seq<ImageReference>,
    timerInterval: real,
    playbackOrder: PlaybackOrder)

  /** A finished session; the initialiser only copies its arguments, so it is a plain value. */
  datatype SessionRecord = SessionRecord(
    id: Uuid,
    boardId: Uuid,
    boardName: string,
    startedAt: Time,
    endedAt: Time,
    duration: real,
    imageCount: int,
    timerInterval: real,
    playbackOrder: PlaybackOrder,
    completedAllImages: bool)

  // ---- ReferenceImage and Board ----------------------------------------------

  /**
   * An image attached to a board. Only `board` is ever written after
   * initialisation, so the other stored properties are constants here.
   */
  class ReferenceImage {
    const id: Uuid
    const filename: string
    const fileHash: string
    const width: int
    const height: int
    const addedAt: Time
    const sortOrder: int
    const focalY: real
    var board: Board?

    constructor (id: Uuid, filename: string, fileHash: string, width: int, height: int,
                 addedAt: Time, sortOrder: int := 0, focalY: real := 0.5)
      ensures this.id == id && this.addedAt == addedAt
      ensures this.filename == filename && this.fileHash == fileHash
      ensures this.width == width && this.height == height
      ensures this.sortOrder == sortOrder && this.focalY == focalY
      ensures board == null
    {
      this.id := id;
      this.filename := filename;
      this.fileHash := fileHash;
      this.width := width;
      this.height := height;
      this.addedAt := addedAt;
      this.sortOrder := sortOrder;
      this.focalY := focalY;
      this.board := null;
    }
  }

  class Board {
    const id: Uuid
    var name: string
    var color: Option<string>
    const createdAt: Time
    var updatedAt: Time
    var images: seq<ReferenceImage>

    /** The two ends of the relationship agree: each listed image, listed once, points back here. */
    ghost predicate Valid()
      reads this, images
    {
      && (forall i :: 0 <= i < |images| ==> images[i].board == this)
      && Seqs.Distinct(images)
    }

    constructor (id: Uuid, name: string, now: Time, color: Option<string> := None)
      ensures this.id == id && this.name == name && this.color == color
      ensures createdAt == now && updatedAt == now
      ensures images == [] && Valid()
    {
      this.id := id;
      this.name := name;
      this.color := color;
      this.createdAt := now;
      this.updatedAt := now;
      this.images := [];
    }

    /** `image.board = self`: SwiftData appends the image to the inverse list. */
    method Attach(image: ReferenceImage)
      requires Valid() && image.board == null
      modifies this, image
      ensures Valid() && image.board == this
      ensures images == old(images) + [image]
      ensures name == old(name) && color == old(color) && updatedAt == old(updatedAt)
    {
      image.board := this;
      images := images + [image];
    }

    /** `modelContext.delete(image)`: the image leaves the list, the others keep their order. */
    method Detach(image: ReferenceImage)
      requires Valid()
      modifies this
      ensures Valid()
      ensures images == Seqs.Without(old(images), {image})
      ensures name == old(name) && color == old(color) && updatedAt == old(updatedAt)
    {
      Seqs.WithoutKeepsDistinct(images, {image});
      Seqs.WithoutMembers(images, {image});
      images := Seqs.Without(images, {image});
    }
  }

  /** The images stored under any of `boards`. */
  ghost function ImagesOf(boards: seq<Board>): set<ReferenceImage>
    reads boards
  {
    set b, k | b in boards && 0 <= k < |b.images| :: b.images[k]
  }

  /** Every board keeps its side of the relationship. */
  ghost predicate AllValid(boards: seq<Board>)
    reads boards, ImagesOf(boards)
  {
    forall b :: b in boards ==> b.Valid()
  }

  /**
   * Over the stored images the relationship is a true inverse: an image is in
   * a board's list exactly when its `board` is that board.
   */
  lemma InverseRelationship(boards: seq<Board>, b: Board, image: ReferenceImage)
    requires AllValid(boards) && b in boards && image in ImagesOf(boards)
    ensures image in b.images <==> image.board == b
  {
    var owner :| owner in boards && image in owner.images;
    assert owner.Valid();
    assert b.Valid();
  }

  /** Deleting a board (cascade rule) removes exactly that board's images from the store. */
  lemma CascadeDelete(boards: seq<Board>, b: Board)
    requires AllValid(boards) && b in boards
    ensures ImagesOf(Seqs.Filter(boards, x => x != b)) == ImagesOf(boards) - set i | i in b.images
  {
    var rest := Seqs.Filter(boards, x => x != b);
    Seqs.FilterMembers(boards, x => x != b);
    forall i | i in ImagesOf(rest) ensures i in ImagesOf(boards) - set i | i in b.images {
      var owner :| owner in rest && i in owner.images;
      assert owner.Valid() && b.Valid();
    }
    forall i | i in ImagesOf(boards) && i !in b.images ensures i in ImagesOf(rest) {
      var owner :| owner in boards && i in owner.images;
      assert owner != b;
    }
  }

  // ---- The store -------------------------------------------------------------

  /** The SwiftData model context, reduced to the two entity lists the app queries. */
  class ModelContext {
    var boards: seq<Board>
    var sessions: seq<SessionRecord>

    /** Board ids are unique (`@Attribute(.unique)`). */
    ghost predicate Valid()
      reads this
    {
      Seqs.DistinctBy(boards, (b: Board) => b.id)
    }

    function BoardIds(): (ids: set<Uuid>)
      reads this
      ensures forall i :: 0 <= i < |boards| ==> boards[i].id in ids
    {
      set b | b in boards :: b.id
    }

    constructor ()
      ensures boards == [] && sessions == [] && Valid()
    {
      boards := [];
      sessions := [];
    }

    method InsertBoard(board: Board)
      requires Valid() && board.id !in BoardIds()
      modifies this
      ensures Valid() && boards == old(boards) + [board] && sessions == old(sessions)
    {
      boards := boards + [board];
    }

    /** Deletes a board; its images go with it (see `CascadeDelete`). */
    method DeleteBoard(board: Board)
      requires Valid()
      modifies this
      ensures Valid() && boards == Seqs.Filter(old(boards), x => x != board)
      ensures sessions == old(sessions)
    {
      Seqs.FilterKeepsDistinct(boards, x => x != board, (b: Board) => b.id);
      boards := Seqs.Filter(boards, x => x != board);
    }

    method InsertSession(record: SessionRecord)
      modifies this
      ensures sessions == old(sessions) + [record] && boards == old(boards)
    {
      sessions := sessions + [record];
    }
  }
}
