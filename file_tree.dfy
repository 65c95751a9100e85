/**
 * The file collector's view of the disk: each dropped or picked URL is either a
 * directory, whose contents the directory enumerator walks, or anything else
 * (a plain file, or a path where nothing exists), which is judged by its name.
 */
module FileTree {
  import opened StoragePaths
  import Seqs

  datatype Node =
    | File(path: Path)
    | Directory(path: Path, children: seq<Node>)

  /**
   * What `FileManager.enumerator(at:)` yields below a directory: every entry,
   * sub-directories included, each directory just before its own contents.
   */
  function Walk(nodes: seq<Node>): (r: seq<Path>)
    ensures |r| >= |nodes|
  {
    if nodes == [] then [] else Entries(nodes[0]) + Walk(nodes[1..])
  }

  function Entries(n: Node): (r: seq<Path>)
    ensures |r| >= 1 && r[0] == n.path
  {
    match n
    case File(p) => [p]
    case Directory(p, cs) => [p] + Walk(cs)
  }

  /** The paths the collector considers for one input URL. */
  function Candidates(url: Node): seq<Path>
  {
    match url
    case File(p) => [p]
    case Directory(_, cs) => Walk(cs)
  }

  /** All candidates of a list of inputs, input by input. */
  function AllCandidates(urls: seq<Node>): seq<Path>
  {
    if urls == [] then [] else Candidates(urls[0]) + AllCandidates(urls[1..])
  }

  /** What `collectImageURLs` returns. */
  function Collected(urls: seq<Node>): seq<Path>
  {
    Seqs.Filter(AllCandidates(urls), IsSupported)
  }

  lemma {:induction false} AllCandidatesConcat(a: seq<Node>, b: seq<Node>)
    ensures AllCandidates(a + b) == AllCandidates(a) + AllCandidates(b)
  {
    if a == [] {
      assert a + b == b;
    } else {
      assert (a + b)[1..] == a[1..] + b;
      AllCandidatesConcat(a[1..], b);
    }
  }

  /** The result for a list of inputs is the results for each input, in input order. */
  lemma CollectedConcat(a: seq<Node>, b: seq<Node>)
    ensures Collected(a + b) == Collected(a) + Collected(b)
  {
    AllCandidatesConcat(a, b);
    Seqs.FilterConcat(AllCandidates(a), AllCandidates(b), IsSupported);
  }

  /** A path is collected exactly when it is a candidate with an allowed extension. */
  lemma CollectedMembership(urls: seq<Node>, p: Path)
    ensures p in Collected(urls) <==> p in AllCandidates(urls) && IsSupported(p)
  {
    var c := AllCandidates(urls);
    Seqs.FilterMembers(c, IsSupported);
    if p in c && IsSupported(p) {
      var k :| 0 <= k < |c| && c[k] == p;
    }
  }

  /** The collector keeps the order in which the candidates were met. */
  lemma CollectedKeepsOrder(urls: seq<Node>)
    ensures Seqs.IsSubsequence(Collected(urls), AllCandidates(urls))
  {
    Seqs.FilterIsSubsequence(AllCandidates(urls), IsSupported);
  }

  /** Directories are walked all the way down: a nested directory's entries are among its parent's. */
  lemma {:induction false} WalkReachesNested(nodes: seq<Node>, i: nat, p: Path)
    requires i < |nodes| && nodes[i].Directory? && p in Walk(nodes[i].children)
    ensures p in Walk(nodes)
  {
    if i == 0 {
      assert Entries(nodes[0]) == [nodes[0].path] + Walk(nodes[0].children);
    } else {
      WalkReachesNested(nodes[1..], i - 1, p);
    }
  }

  /**
   * A file named `stem.ext` is judged by `ext` alone, whatever directory it
   * sits in, unless the stem is empty: ".png" has no extension and is skipped.
   */
  lemma SupportedByExtension(dir: Path, stem: string, ext: string)
    requires forall k :: 0 <= k < |stem| ==> stem[k] != '.'
    requires forall k :: 0 <= k < |ext| ==> ext[k] != '.'
    ensures IsSupported(dir + [stem + "." + ext]) <==> stem != [] && Text.Lower(ext) in SupportedExtensions
  {
    assert (dir + [stem + "." + ext])[|dir|] == stem + "." + ext;
    if stem == [] {
      assert stem + "." + ext == "." + ext;
      LeadingDotIsName(ext);
      assert Text.Lower("") == "";
    } else {
      SplitAtOnlyDot(stem, ext);
    }
  }
}
