/** The remote file system as the SFTP client sees it: a map from paths to nodes, the effect of
    each request, and what every request leaves alone. */
module RemoteFs {
  import opened Basics
  import opened Paths

  datatype Node =
    | FileNode(content: seq<byte>)
    | DirNode
    | LinkNode

  type Fs = map<Path, Node>

  /** Relative names of what lies at and under `root` ("" is the root itself). */
  function RelativeNames(fs: Fs, root: Path): (names: set<string>)
    ensures forall k :: k in names <==> root + k in fs && Within(root, root + k)
  {
    var names := set p | p in fs && Within(root, p) :: p[|root|..];
    assert forall p :: p in fs && Within(root, p) ==> p == root + p[|root|..];
    assert forall k {:trigger root + k} :: (root + k)[|root|..] == k;
    names
  }

  /** The subtree at `root`, by relative name. */
  function Subtree(fs: Fs, root: Path): (t: map<string, Node>) {
    map k | k in RelativeNames(fs, root) :: fs[root + k]
  }

  lemma RelativePath(root: Path, p: Path)
    requires Within(root, p)
    ensures p == root + p[|root|..]
  {
  }

  /** Two file systems hold the same nodes at and under `root`. */
  ghost predicate AgreeWithin(fs: Fs, fs': Fs, root: Path) {
    forall p :: Within(root, p) ==> SameAt(fs, fs', p)
  }

  ghost predicate SameAt(fs: Fs, fs': Fs, p: Path) {
    (p in fs <==> p in fs') && (p in fs ==> fs[p] == fs'[p])
  }

  lemma AgreeingSubtrees(fs: Fs, fs': Fs, root: Path)
    requires AgreeWithin(fs, fs', root)
    ensures Subtree(fs, root) == Subtree(fs', root)
  {
    forall k | Within(root, root + k) ensures SameAt(fs, fs', root + k) {
    }
  }

  // ---- Requests ----

  datatype Op =
    | Truncate(path: Path)                        // open with CREATE | TRUNCATE | WRITE
    | Append(path: Path, data: seq<byte>)         // one write at the end of an open file
    | MakeDir(path: Path)
    | Rename(from: Path, to: Path)
    | RemoveFile(path: Path)
    | RemoveDir(path: Path)

  predicate Vacant(fs: Fs, root: Path) {
    forall p :: p in fs ==> !Within(root, p)
  }

  predicate Leaf(fs: Fs, path: Path) {
    forall p :: p in fs ==> !Below(path, p)
  }

  /** Whether a server can carry the request out at all. Renaming never replaces an existing
      item (section 6.5 of draft-ietf-secsh-filexfer-02). */
  predicate Can(fs: Fs, op: Op) {
    match op
    case Truncate(p) => (p in fs ==> fs[p].FileNode?) && Leaf(fs, p)
    case Append(p, _) => p in fs && fs[p].FileNode?
    case MakeDir(p) => Vacant(fs, p)
    case Rename(from, to) => from in fs && Vacant(fs, to) && !Within(from, to)
    case RemoveFile(p) => p in fs && !fs[p].DirNode? && Leaf(fs, p)
    case RemoveDir(p) => p in fs && fs[p].DirNode? && Leaf(fs, p)
  }

  /** The file system after a rename: the whole subtree is re-rooted. */
  function Renamed(fs: Fs, from: Path, to: Path): (fs': Fs)
    requires Can(fs, Rename(from, to))
  {
    var arrived := set k | k in RelativeNames(fs, from) :: to + k;
    var stayed := set p | p in fs && !Within(from, p);
    assert forall k {:trigger to + k} :: (to + k)[|to|..] == k;
    map p | p in stayed + arrived :: if p in arrived then fs[from + p[|to|..]] else fs[p]
  }

  function Apply(fs: Fs, op: Op): Fs
    requires Can(fs, op)
  {
    match op
    case Truncate(p) => fs[p := FileNode([])]
    case Append(p, data) => fs[p := FileNode(fs[p].content + data)]
    case MakeDir(p) => fs[p := DirNode]
    case Rename(from, to) => Renamed(fs, from, to)
    case RemoveFile(p) => fs - {p}
    case RemoveDir(p) => fs - {p}
  }

  /** The one path a request other than rename changes. */
  predicate Touches(op: Op, root: Path) {
    match op
    case Rename(_, _) => false
    case _ => Within(root, op.path)
  }

  lemma RenameMoves(fs: Fs, from: Path, to: Path)
    requires Can(fs, Rename(from, to)) && Unrelated(from, to)
    ensures Subtree(Renamed(fs, from, to), to) == Subtree(fs, from)
    ensures Subtree(Renamed(fs, from, to), from) == map[]
  {
    RenameArrives(fs, from, to);
    RenameEmpties(fs, from, to);
    VacantSubtree(Renamed(fs, from, to), from);
  }

  lemma RenameArrives(fs: Fs, from: Path, to: Path)
    requires Can(fs, Rename(from, to)) && Unrelated(from, to)
    ensures Subtree(Renamed(fs, from, to), to) == Subtree(fs, from)
  {
    var fs' := Renamed(fs, from, to);
    forall k ensures k in Subtree(fs', to) <==> k in Subtree(fs, from)
    {
      assert (to + k)[|to|..] == k;
      SameTail(from, to, k);
    }
    forall k | k in Subtree(fs, from) ensures Subtree(fs', to)[k] == Subtree(fs, from)[k] {
      assert (to + k)[|to|..] == k;
    }
  }

  lemma RenameEmpties(fs: Fs, from: Path, to: Path)
    requires Can(fs, Rename(from, to)) && Unrelated(from, to)
    ensures Vacant(Renamed(fs, from, to), from)
  {
    var fs' := Renamed(fs, from, to);
    hide Below;
    forall p | p in fs' ensures !Within(from, p) {
      if Within(to, p) {
        UnrelatedInside(to, from, p);
      }
    }
  }

  lemma SameTail(from: Path, to: Path, k: string)
    ensures Within(from, from + k) <==> Within(to, to + k)
  {
    WithinByTail(from, k);
    WithinByTail(to, k);
  }

  lemma WithinByTail(root: Path, k: string)
    ensures Within(root, root + k) <==> k == "" || k[0] == '/'
  {
    assert (root + k)[..|root|] == root && (root + k)[|root|..] == k;
  }

  /** A rename leaves every path unrelated to both of its ends alone. */
  lemma RenameFrame(fs: Fs, from: Path, to: Path, p: Path)
    requires Can(fs, Rename(from, to))
    requires !Within(from, p) && !Within(to, p)
    ensures SameAt(fs, Renamed(fs, from, to), p)
  {
  }

  lemma RenameKeepsSubtree(fs: Fs, from: Path, to: Path, root: Path)
    requires Can(fs, Rename(from, to))
    requires Unrelated(from, root) && Unrelated(to, root)
    ensures Subtree(Renamed(fs, from, to), root) == Subtree(fs, root)
  {
    forall p | Within(root, p) ensures SameAt(fs, Renamed(fs, from, to), p) {
      UnrelatedInside(root, from, p);
      UnrelatedInside(root, to, p);
    }
    AgreeingSubtrees(fs, Renamed(fs, from, to), root);
  }

  lemma LocalOpFrame(fs: Fs, op: Op, p: Path)
    requires Can(fs, op) && !op.Rename? && p != op.path
    ensures SameAt(fs, Apply(fs, op), p)
  {
  }

  lemma LocalOpKeepsSubtree(fs: Fs, op: Op, area: Path, root: Path)
    requires Can(fs, op) && Touches(op, area) && Unrelated(area, root)
    ensures Subtree(Apply(fs, op), root) == Subtree(fs, root)
  {
    forall p | Within(root, p) ensures SameAt(fs, Apply(fs, op), p) {
      UnrelatedInside(root, area, p);
    }
    AgreeingSubtrees(fs, Apply(fs, op), root);
  }

  lemma TailIsUnique(area: Path, p: Path, k: string)
    requires Within(area, p)
    ensures area + k == p <==> k == p[|area|..]
  {
    RelativePath(area, p);
    assert (area + k)[|area|..] == k;
  }

  lemma PutInSubtree(fs: Fs, area: Path, p: Path, node: Node)
    requires Within(area, p)
    ensures Subtree(fs[p := node], area) == Subtree(fs, area)[p[|area|..] := node]
    ensures p in fs <==> p[|area|..] in Subtree(fs, area)
    ensures p in fs ==> Subtree(fs, area)[p[|area|..]] == fs[p]
  {
    RelativePath(area, p);
    forall k ensures area + k == p <==> k == p[|area|..] {
      TailIsUnique(area, p, k);
    }
  }

  /** Making a directory at a vacant name puts the bare directory there. */
  lemma MadeDir(fs: Fs, root: Path)
    requires Vacant(fs, root)
    ensures Subtree(fs[root := DirNode], root) == map["" := DirNode]
  {
    PutInSubtree(fs, root, root, DirNode);
    VacantSubtree(fs, root);
  }

  /** Every ancestor of an existing item, up to `root`, exists and is a directory. */
  ghost predicate Closed(fs: Fs, root: Path) {
    forall d, p :: p in fs && Within(root, d) && Below(d, p) ==> d in fs && fs[d].DirNode?
  }

  /** The file system with everything at and under `root` gone. */
  function Without(fs: Fs, root: Path): Fs {
    map p | p in fs && !Within(root, p) :: fs[p]
  }

  lemma VacantSubtree(fs: Fs, root: Path)
    ensures Vacant(fs, root) <==> Subtree(fs, root) == map[]
  {
    forall p | p in fs && Within(root, p) ensures p[|root|..] in Subtree(fs, root) {
      RelativePath(root, p);
    }
  }
}
