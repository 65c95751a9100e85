/**
 * The image store: importing a file into a board's directory under a
 * content-derived name, its 300-pixel JPEG thumbnail, deleting an image's
 * files or a board's directories, and collecting image files from dropped or
 * picked URLs.
 *
 * The disk is a `Store`: file contents by path, plus the set of directories.
 * SHA-256, ImageIO's decoder and its thumbnail encoder are not modelled; they
 * are the `Codecs` the service is built with.
 */
module ImageStorage {
  import opened Wrappers
  import opened Hex
  import opened Text
  import opened Models
  import opened StoragePaths
  import opened FileTree
  import Seqs

  /** Pixel width and height, as ImageIO reports them. */
  datatype Size = Size(width: int, height: int)

  datatype Codecs = Codecs(
    /** SHA-256 of the file's bytes. */
    sha256: seq<Byte> -> Digest,
    /** The size of the first image in the data, or None when ImageIO cannot read one. */
    decodeSize: seq<Byte> -> Option<Size>,
    /** The encoded JPEG thumbnail, or None when rendering or encoding fails. */
    thumbnail: seq<Byte> -> Option<seq<Byte>>)

  datatype ImportedImage = ImportedImage(filename: string, fileHash: string, width: int, height: int)

  /** Reading the source fails, or its bytes are not an image. */
  datatype ImportError = ReadFailed | InvalidImage

  datatype Store = Store(files: map<Path, seq<Byte>>, directories: set<Path>)

  /** The lower-case hex SHA-256 that names the file and identifies duplicates. */
  function ContentHash(c: Codecs, data: seq<Byte>): (hash: string)
    ensures |hash| == 64
    ensures forall k :: 0 <= k < |hash| ==> IsHexDigit(hash[k])
  {
    HexString(c.sha256(data))
  }

  // ---- Specification of the operations -----------------------------------------

  /** `generateThumbnail`: make the thumbnail directory, then write a thumbnail unless one exists. */
  function Thumbnail(s: Store, data: seq<Byte>, filename: string, boardId: Uuid, c: Codecs): Store
  {
    var dirs := s.directories + {ThumbnailDirectory(boardId)};
    var url := ThumbnailUrl(filename, boardId);
    if url in s.files then Store(s.files, dirs)
    else match c.thumbnail(data)
      case None => Store(s.files, dirs)
      case Some(jpeg) => Store(s.files[url := jpeg], dirs)
  }

  /** `importImage`: the result and the store afterwards. */
  function Import(s: Store, source: Path, boardId: Uuid, c: Codecs): (Result<ImportedImage, ImportError>, Store)
  {
    var dirs := s.directories + {BoardDirectory(boardId)};
    if source !in s.files then (Failure(ReadFailed), Store(s.files, dirs))
    else
      var data := s.files[source];
      match c.decodeSize(data)
      case None => (Failure(InvalidImage), Store(s.files, dirs))
      case Some(size) =>
        var hash := ContentHash(c, data);
        var filename := CanonicalFilename(hash, FileExtension(source));
        var original := ImageUrl(filename, boardId);
        var files := if original in s.files then s.files else s.files[original := data];
        (Success(ImportedImage(filename, hash, size.width, size.height)),
         Thumbnail(Store(files, dirs), data, filename, boardId, c))
  }

  /** `deleteImage`: both removals are attempted; a missing file is not an error. */
  function DeleteImageFiles(s: Store, filename: string, boardId: Uuid): Store
  {
    Store(s.files - {ImageUrl(filename, boardId), ThumbnailUrl(filename, boardId)}, s.directories)
  }

  /** `p` is `dir` itself or lies somewhere below it. */
  predicate Under(p: Path, dir: Path)
  {
    |dir| <= |p| && p[..|dir|] == dir
  }

  /** `removeItem(at: dir)`: the directory goes with everything below it. */
  function RemoveTree(s: Store, dir: Path): (r: Store)
    ensures forall p :: p in r.files ==> p in s.files && !Under(p, dir) && r.files[p] == s.files[p]
    ensures forall p :: p in s.files && !Under(p, dir) ==> p in r.files
    ensures r.directories == set d | d in s.directories && !Under(d, dir)
  {
    Store(map p | p in s.files && !Under(p, dir) :: s.files[p],
          set d | d in s.directories && !Under(d, dir))
  }

  /** `deleteBoardFiles`: the board's image directory, then its thumbnail directory. */
  function DeleteBoardTree(s: Store, boardId: Uuid): Store
  {
    RemoveTree(RemoveTree(s, BoardDirectory(boardId)), ThumbnailDirectory(boardId))
  }

  // ---- Properties of import ------------------------------------------------------

  /** The two ways an import fails, and what a successful one reports. */
  lemma ImportOutcome(s: Store, source: Path, boardId: Uuid, c: Codecs)
    ensures var r := Import(s, source, boardId, c).0;
      && (r == Failure(ReadFailed) <==> source !in s.files)
      && (r == Failure(InvalidImage) <==> source in s.files && c.decodeSize(s.files[source]).None?)
      && (r.Success? ==>
            var data := s.files[source];
            && r.value.fileHash == HexString(c.sha256(data))
            && r.value.filename == r.value.fileHash + "." + StoredExtension(FileExtension(source))
            && c.decodeSize(data) == Some(Size(r.value.width, r.value.height)))
  {
  }

  /** An import only adds files: nothing already on disk is replaced or removed. */
  lemma ImportNeverOverwrites(s: Store, source: Path, boardId: Uuid, c: Codecs)
    ensures var s' := Import(s, source, boardId, c).1;
      && (forall p :: p in s.files ==> p in s'.files && s'.files[p] == s.files[p])
      && s.directories <= s'.directories
  {
  }

  /** A failed import leaves every file as it was; only the board directory may appear. */
  lemma ImportFailureWritesNothing(s: Store, source: Path, boardId: Uuid, c: Codecs)
    requires Import(s, source, boardId, c).0.Failure?
    ensures Import(s, source, boardId, c).1 == Store(s.files, s.directories + {BoardDirectory(boardId)})
  {
  }

  /**
   * After a successful import the original is on disk under its canonical name,
   * holding the source's bytes unless a file of that name was already there,
   * and the only other file that can have appeared is its thumbnail.
   */
  lemma ImportStoresOriginal(s: Store, source: Path, boardId: Uuid, c: Codecs)
    requires Import(s, source, boardId, c).0.Success?
    ensures var (r, s') := Import(s, source, boardId, c);
      var original := ImageUrl(r.value.filename, boardId);
      && original in s'.files
      && (original !in s.files ==> s'.files[original] == s.files[source])
      && (forall p :: p in s'.files && p !in s.files ==>
            p == original || p == ThumbnailUrl(r.value.filename, boardId))
      && BoardDirectory(boardId) in s'.directories
      && ThumbnailDirectory(boardId) in s'.directories
  {
    var (r, s') := Import(s, source, boardId, c);
    LocationsDistinct(r.value.filename, boardId, r.value.filename, boardId);
  }

  /**
   * Importing a second source with the same bytes and the same extension (or the
   * same source again) reports the same image and changes nothing on disk.
   */
  lemma ImportSameContentIsNoOp(s: Store, first: Path, second: Path, boardId: Uuid, c: Codecs)
    requires first in s.files && second in s.files && s.files[first] == s.files[second]
    requires Lower(FileExtension(first)) == Lower(FileExtension(second))
    ensures var (r1, s1) := Import(s, first, boardId, c);
            Import(s1, second, boardId, c) == (r1, s1)
  {
    var (r1, s1) := Import(s, first, boardId, c);
    ImportNeverOverwrites(s, first, boardId, c);
    var data := s.files[first];
    assert s1.files[second] == data;
    assert BoardDirectory(boardId) in s1.directories;
    if r1.Success? {
      ImportStoresOriginal(s, first, boardId, c);
      var name := r1.value.filename;
      assert name == CanonicalFilename(ContentHash(c, data), FileExtension(second));
      assert ImageUrl(name, boardId) in s1.files;
      var thumb := ThumbnailUrl(name, boardId);
      assert ThumbnailDirectory(boardId) in s1.directories;
      var mid := Store(s1.files, s1.directories + {BoardDirectory(boardId)});
      assert mid == s1;
      if thumb in s1.files {
        assert Thumbnail(mid, data, name, boardId, c) == s1;
      } else {
        assert c.thumbnail(data).None?;
        assert Thumbnail(mid, data, name, boardId, c) == s1;
      }
    }
  }

  /** `FileExtension` of a path is `PathExtension` of its last component. */
  lemma FileExtensionOfLast(dir: Path, name: string)
    ensures FileExtension(dir + [name]) == PathExtension(name)
  {
    assert (dir + [name])[|dir|] == name;
  }

  /**
   * The same bytes imported under two extensions that lower-case differently
   * are stored twice, but share one thumbnail.
   */
  lemma DifferentExtensionsShareThumbnail(c: Codecs, data: seq<Byte>, dir1: Path, name1: string,
                                          dir2: Path, name2: string, boardId: Uuid)
    requires StoredExtension(PathExtension(name1)) != StoredExtension(PathExtension(name2))
    ensures var hash := ContentHash(c, data);
      var f1 := CanonicalFilename(hash, FileExtension(dir1 + [name1]));
      var f2 := CanonicalFilename(hash, FileExtension(dir2 + [name2]));
      && ImageUrl(f1, boardId) != ImageUrl(f2, boardId)
      && ThumbnailUrl(f1, boardId) == ThumbnailUrl(f2, boardId)
  {
    var digest := c.sha256(data);
    FileExtensionOfLast(dir1, name1);
    FileExtensionOfLast(dir2, name2);
    CanonicalFilenameParts(digest, name1);
    CanonicalFilenameParts(digest, name2);
    ThumbnailOfCanonical(digest, name1, boardId);
    ThumbnailOfCanonical(digest, name2, boardId);
    var f1 := CanonicalFilename(ContentHash(c, data), PathExtension(name1));
    var f2 := CanonicalFilename(ContentHash(c, data), PathExtension(name2));
    LocationsDistinct(f1, boardId, f2, boardId);
  }

  // ---- Properties of deletion ------------------------------------------------------

  /** Deleting an image removes its original and its thumbnail and nothing else. */
  lemma DeleteImageRemovesBoth(s: Store, filename: string, boardId: Uuid)
    ensures var s' := DeleteImageFiles(s, filename, boardId);
      && ImageUrl(filename, boardId) !in s'.files
      && ThumbnailUrl(filename, boardId) !in s'.files
      && (forall p :: p in s.files && p != ImageUrl(filename, boardId) && p != ThumbnailUrl(filename, boardId)
            ==> p in s'.files && s'.files[p] == s.files[p])
      && DeleteImageFiles(s', filename, boardId) == s'
  {
  }

  /** A board's directory holds exactly the originals of that board. */
  lemma UnderBoardDirectory(filename: string, boardId: Uuid, other: Uuid)
    ensures Under(ImageUrl(filename, other), BoardDirectory(boardId)) <==> other == boardId
    ensures !Under(ThumbnailUrl(filename, other), BoardDirectory(boardId))
    ensures Under(ThumbnailUrl(filename, other), ThumbnailDirectory(boardId)) <==> other == boardId
    ensures !Under(ImageUrl(filename, other), ThumbnailDirectory(boardId))
  {
    assert ImageUrl(filename, other)[..3] == BoardDirectory(other);
    assert ThumbnailUrl(filename, other)[..3] == ThumbnailDirectory(other);
    assert BoardDirectory(other)[2] == other && ThumbnailDirectory(other)[2] == other;
    assert ImageUrl(filename, other)[1] != ThumbnailDirectory(boardId)[1];
    assert ThumbnailUrl(filename, other)[1] != BoardDirectory(boardId)[1];
  }

  /**
   * Deleting a board's files leaves nothing under either of its directories,
   * keeps every other file, and in particular keeps every other board's images
   * and thumbnails; doing it twice is the same as once.
   */
  lemma DeleteBoardRemovesOnlyThatBoard(s: Store, boardId: Uuid)
    ensures var s' := DeleteBoardTree(s, boardId);
      && (forall p :: p in s'.files ==> !Under(p, BoardDirectory(boardId)) && !Under(p, ThumbnailDirectory(boardId)))
      && (forall p :: p in s.files && !Under(p, BoardDirectory(boardId)) && !Under(p, ThumbnailDirectory(boardId))
            ==> p in s'.files && s'.files[p] == s.files[p])
      && (forall f, other :: other != boardId && ImageUrl(f, other) in s.files ==> ImageUrl(f, other) in s'.files)
      && (forall f, other :: other != boardId && ThumbnailUrl(f, other) in s.files ==> ThumbnailUrl(f, other) in s'.files)
      && DeleteBoardTree(s', boardId) == s'
  {
    var s' := DeleteBoardTree(s, boardId);
    forall f, other | other != boardId && ImageUrl(f, other) in s.files
      ensures ImageUrl(f, other) in s'.files
    {
      UnderBoardDirectory(f, boardId, other);
    }
    forall f, other | other != boardId && ThumbnailUrl(f, other) in s.files
      ensures ThumbnailUrl(f, other) in s'.files
    {
      UnderBoardDirectory(f, boardId, other);
    }
    assert RemoveTree(s', BoardDirectory(boardId)) == s';
    assert RemoveTree(s', ThumbnailDirectory(boardId)) == s';
  }

  // ---- The service ---------------------------------------------------------------

  class ImageStorageService {
    var files: map<Path, seq<Byte>>
    var directories: set<Path>
    const codecs: Codecs

    function State(): Store
      reads this
    {
      Store(files, directories)
    }

    constructor (codecs: Codecs, disk: Store)
      ensures State() == disk && this.codecs == codecs
    {
      this.codecs := codecs;
      files := disk.files;
      directories := disk.directories;
    }

    /** `createDirectory(withIntermediateDirectories: true)`: succeeds when it already exists. */
    method CreateDirectory(dir: Path)
      modifies this
      ensures files == old(files) && directories == old(directories) + {dir}
    {
      directories := directories + {dir};
    }

    method ImportImage(source: Path, boardId: Uuid) returns (r: Result<ImportedImage, ImportError>)
      modifies this
      ensures (r, State()) == Import(old(State()), source, boardId, codecs)
    {
      var boardDir := BoardDirectory(boardId);
      CreateDirectory(boardDir);
      if source !in files {
        return Failure(ReadFailed);
      }
      var data := files[source];
      var hash := HexString(codecs.sha256(data));
      var size := codecs.decodeSize(data);
      if size.None? {
        return Failure(InvalidImage);
      }
      var ext := Lower(FileExtension(source));
      var filename := hash + "." + (if ext == [] then "jpg" else ext);
      var destination := boardDir + [filename];
      if destination !in files {
        files := files[destination := data];
      }
      GenerateThumbnail(data, filename, boardId);
      r := Success(ImportedImage(filename, hash, size.value.width, size.value.height));
    }

    method GenerateThumbnail(data: seq<Byte>, filename: string, boardId: Uuid)
      modifies this
      ensures State() == Thumbnail(old(State()), data, filename, boardId, codecs)
    {
      CreateDirectory(ThumbnailDirectory(boardId));
      var thumbUrl := ThumbnailUrl(filename, boardId);
      if thumbUrl in files {
        return;
      }
      var jpeg := codecs.thumbnail(data);
      if jpeg.None? {
        return;
      }
      files := files[thumbUrl := jpeg.value];
    }

    method DeleteImage(filename: string, boardId: Uuid)
      modifies this
      ensures State() == DeleteImageFiles(old(State()), filename, boardId)
    {
      files := files - {ImageUrl(filename, boardId)};
      files := files - {ThumbnailUrl(filename, boardId)};
    }

    /** `removeItem(at:)` on a directory. */
    method RemoveItem(dir: Path)
      modifies this
      ensures State() == RemoveTree(old(State()), dir)
    {
      files := map p | p in files && !Under(p, dir) :: files[p];
      directories := set d | d in directories && !Under(d, dir);
    }

    method DeleteBoardFiles(boardId: Uuid)
      modifies this
      ensures State() == DeleteBoardTree(old(State()), boardId)
    {
      RemoveItem(BoardDirectory(boardId));
      RemoveItem(ThumbnailDirectory(boardId));
    }

    /** The enumeration of one directory: its entries whose extension is allowed, in enumeration order. */
    method SupportedEntries(entries: seq<Path>) returns (found: seq<Path>)
      ensures found == Seqs.Filter(entries, IsSupported)
    {
      found := [];
      var j := 0;
      while j < |entries|
        invariant 0 <= j <= |entries|
        invariant found == Seqs.Filter(entries[..j], IsSupported)
      {
        var entry := entries[j];
        Seqs.FilterSnoc(entries[..j], entry, IsSupported);
        assert entries[..j + 1] == entries[..j] + [entry];
        if IsSupported(entry) {
          found := found + [entry];
        }
        j := j + 1;
      }
      assert entries[..j] == entries;
    }

    /**
     * `collectImageURLs`: directories are enumerated recursively and their
     * entries kept when the extension is allowed; anything else is kept when
     * its own extension is allowed.
     */
    method CollectImageUrls(urls: seq<Node>) returns (result: seq<Path>)
      ensures result == Collected(urls)
    {
      result := [];
      var i := 0;
      while i < |urls|
        invariant 0 <= i <= |urls|
        invariant result == Collected(urls[..i])
      {
        var url := urls[i];
        var found: seq<Path> := [];
        if url.Directory? {
          found := SupportedEntries(Walk(url.children));
          assert Candidates(url) == Walk(url.children);
        } else {
          if IsSupported(url.path) {
            found := [url.path];
          }
          FilterSingle(url.path);
        }
        CollectedStep(urls, i, found);
        result := result + found;
        i := i + 1;
      }
      assert urls[..i] == urls;
    }
  }

  lemma FilterSingle(p: Path)
    ensures Seqs.Filter([p], IsSupported) == if IsSupported(p) then [p] else []
  {
    assert [p][1..] == [];
  }

  lemma CollectedSingle(url: Node)
    ensures Collected([url]) == Seqs.Filter(Candidates(url), IsSupported)
  {
    assert [url][1..] == [];
    assert AllCandidates([url]) == Candidates(url) + AllCandidates([]);
    assert Candidates(url) + [] == Candidates(url);
  }

  lemma CollectedStep(urls: seq<Node>, i: nat, found: seq<Path>)
    requires i < |urls|
    requires found == Seqs.Filter(Candidates(urls[i]), IsSupported)
    ensures Collected(urls[..i + 1]) == Collected(urls[..i]) + found
  {
    CollectedSingle(urls[i]);
    CollectedConcat(urls[..i], [urls[i]]);
    assert urls[..i + 1] == urls[..i] + [urls[i]];
  }
}
