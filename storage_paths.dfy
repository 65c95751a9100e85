/**
 * Where the image store keeps things, relative to the user's Application Support
 * directory:
 *   Gesto/Images/<board uuid>/<filename>
 *   Gesto/Thumbnails/<board uuid>/<filename without extension>_thumb.jpg
 * plus the file-name rules the importer applies (extension, canonical name) and
 * the allow-list of image extensions.
 */
module StoragePaths {
  import opened Wrappers
  import opened Text
  import Hex
  import opened Models

  /** A location below Application Support, one string per path component. */
  type Path = seq<string>

  const ImagesRoot: Path := ["Gesto", "Images"]
  const ThumbnailsRoot: Path := ["Gesto", "Thumbnails"]

  /** The ten extensions the collector accepts, compared in lower case. */
  const SupportedExtensions: set<string> :=
    {"jpg", "jpeg", "png", "heic", "heif", "webp", "tiff", "tif", "gif", "bmp"}

  lemma SupportedExtensionsCount()
    ensures |SupportedExtensions| == 10
  {
  }

  function BoardDirectory(boardId: Uuid): Path { ImagesRoot + [boardId] }

  function ThumbnailDirectory(boardId: Uuid): Path { ThumbnailsRoot + [boardId] }

  // ---- File-name extensions ----------------------------------------------------

  /**
   * Index of the last '.' in `name` that can divide off an extension. A dot at
   * index 0 cannot: as with Foundation's path extensions, a leading dot belongs
   * to the name (".png" has no extension).
   */
  function LastDot(name: string): (r: Option<nat>)
    ensures r.Some? ==> 0 < r.value < |name| && name[r.value] == '.'
    ensures r.Some? ==> forall k :: r.value < k < |name| ==> name[k] != '.'
    ensures r.None? ==> forall k :: 0 < k < |name| ==> name[k] != '.'
  {
    if |name| <= 1 then None
    else if name[|name| - 1] == '.' then Some(|name| - 1)
    else LastDot(name[..|name| - 1])
  }

  /** `pathExtension`: what follows the last '.', or "" when there is none. */
  function PathExtension(name: string): (ext: string)
    ensures forall k :: 0 <= k < |ext| ==> ext[k] != '.'
  {
    match LastDot(name)
    case None => ""
    case Some(k) => name[k + 1..]
  }

  /** `deletingPathExtension`: everything before the last '.'. */
  function DeletingPathExtension(name: string): string
  {
    match LastDot(name)
    case None => name
    case Some(k) => name[..k]
  }

  /** Splitting at the last dot loses nothing. */
  lemma ExtensionSplit(name: string)
    ensures LastDot(name).Some? ==> name == DeletingPathExtension(name) + "." + PathExtension(name)
    ensures LastDot(name).None? ==> name == DeletingPathExtension(name) && PathExtension(name) == ""
  {
    if LastDot(name).Some? {
      var k := LastDot(name).value;
      assert name == name[..k] + [name[k]] + name[k + 1..];
    }
  }

  /** A non-empty dot-free stem, a dot and a dot-free extension split back into the two. */
  lemma {:induction false} SplitAtOnlyDot(stem: string, ext: string)
    requires stem != [] && forall k :: 0 <= k < |stem| ==> stem[k] != '.'
    requires forall k :: 0 <= k < |ext| ==> ext[k] != '.'
    ensures PathExtension(stem + "." + ext) == ext
    ensures DeletingPathExtension(stem + "." + ext) == stem
  {
    var name := stem + "." + ext;
    assert name[|stem|] == '.';
    var k := LastDot(name).value;
    assert forall j :: |stem| < j < |name| ==> name[j] == ext[j - |stem| - 1];
    assert k == |stem|;
    assert name[k + 1..] == ext;
    assert name[..k] == stem;
  }

  /** A name made of a leading dot and a dot-free rest has no extension: it is all stem. */
  lemma {:induction false} LeadingDotIsName(rest: string)
    requires forall k :: 0 <= k < |rest| ==> rest[k] != '.'
    ensures PathExtension("." + rest) == ""
    ensures DeletingPathExtension("." + rest) == "." + rest
  {
    var name := "." + rest;
    assert forall k :: 0 < k < |name| ==> name[k] == rest[k - 1];
    assert LastDot(name).None?;
  }

  /** The extension of the last component of a path. */
  function FileExtension(p: Path): string
  {
    if p == [] then "" else PathExtension(p[|p| - 1])
  }

  /** The collector's test: the lower-cased extension is on the allow-list. */
  predicate IsSupported(p: Path)
  {
    Lower(FileExtension(p)) in SupportedExtensions
  }

  // ---- Canonical names and locations ---------------------------------------------

  /** The stored extension: the source's, lower-cased, or "jpg" when it has none. */
  function StoredExtension(sourceExtension: string): (ext: string)
    ensures ext != ""
    ensures Lower(sourceExtension) != "" ==> ext == Lower(sourceExtension)
    ensures Lower(sourceExtension) == "" ==> ext == "jpg"
  {
    var lowered := Lower(sourceExtension);
    if lowered == "" then "jpg" else lowered
  }

  /** `"\(hash).\(ext)"`: the name an import is stored under. */
  function CanonicalFilename(hash: string, sourceExtension: string): string
  {
    hash + "." + StoredExtension(sourceExtension)
  }

  /** `imageURL(for:boardId:)`. */
  function ImageUrl(filename: string, boardId: Uuid): Path
  {
    BoardDirectory(boardId) + [filename]
  }

  /** `thumbnailURL(for:boardId:)`: the name loses its extension and gains `_thumb.jpg`. */
  function ThumbnailUrl(filename: string, boardId: Uuid): Path
  {
    ThumbnailDirectory(boardId) + [DeletingPathExtension(filename) + "_thumb.jpg"]
  }

  /** The stored extension never contains a dot, since the source's is taken after the last one. */
  lemma StoredExtensionDotFree(sourceExtension: string)
    requires forall k :: 0 <= k < |sourceExtension| ==> sourceExtension[k] != '.'
    ensures var ext := StoredExtension(sourceExtension);
            forall k :: 0 <= k < |ext| ==> ext[k] != '.'
  {
  }

  /**
   * A canonical name of a hex hash reads back as that hash and the stored
   * extension.
   */
  lemma CanonicalFilenameParts(digest: Hex.Digest, sourceName: string)
    ensures var name := CanonicalFilename(Hex.HexString(digest), PathExtension(sourceName));
            && DeletingPathExtension(name) == Hex.HexString(digest)
            && PathExtension(name) == StoredExtension(PathExtension(sourceName))
  {
    var hash := Hex.HexString(digest);
    StoredExtensionDotFree(PathExtension(sourceName));
    SplitAtOnlyDot(hash, StoredExtension(PathExtension(sourceName)));
  }

  /**
   * The thumbnail of a canonical name depends only on the hash: the same bytes
   * imported under different extensions share one thumbnail.
   */
  lemma ThumbnailOfCanonical(digest: Hex.Digest, sourceName: string, boardId: Uuid)
    ensures var hash := Hex.HexString(digest);
            ThumbnailUrl(CanonicalFilename(hash, PathExtension(sourceName)), boardId)
              == ThumbnailsRoot + [boardId, hash + "_thumb.jpg"]
  {
    CanonicalFilenameParts(digest, sourceName);
  }

  /** Originals of different boards or names never collide, nor do they meet thumbnails. */
  lemma LocationsDistinct(f1: string, b1: Uuid, f2: string, b2: Uuid)
    ensures ImageUrl(f1, b1) == ImageUrl(f2, b2) <==> f1 == f2 && b1 == b2
    ensures ImageUrl(f1, b1) != ThumbnailUrl(f2, b2)
  {
    if ImageUrl(f1, b1) == ImageUrl(f2, b2) {
      assert ImageUrl(f1, b1)[2] == b1 && ImageUrl(f2, b2)[2] == b2;
      assert ImageUrl(f1, b1)[3] == f1 && ImageUrl(f2, b2)[3] == f2;
    }
    assert ImageUrl(f1, b1)[1] != ThumbnailUrl(f2, b2)[1];
  }
}
