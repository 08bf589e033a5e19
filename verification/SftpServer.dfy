/** The remote end of an SFTP session, and the removal of a remote directory tree through it. */
module SftpServer {
  import opened Paths
  import opened RemoteFs

  datatype RemoteEntry = RemoteEntry(path: Path, isDir: bool)

  predicate DirectChild(dir: Path, p: Path) {
    Below(dir, p) && '/' !in p[|dir| + 1..]
  }

  /** `entries` lists the direct children of `dir`, each once, in some order. */
  ghost predicate Listing(fs: Fs, dir: Path, entries: seq<RemoteEntry>) {
    && (forall e :: e in entries ==> e.path in fs && DirectChild(dir, e.path) && e.isDir == fs[e.path].DirNode?)
    && (forall p :: p in fs && DirectChild(dir, p) ==> RemoteEntry(p, fs[p].DirNode?) in entries)
    && (forall i, j :: 0 <= i < j < |entries| ==> entries[i].path != entries[j].path)
  }

  class Server {
    var fs: Fs
    /** A reliable server refuses exactly what it cannot do; any other may fail at will,
        even after carrying a request out. */
    const reliable: bool

    constructor (fs: Fs, reliable: bool)
      ensures this.fs == fs && this.reliable == reliable
    {
      this.fs := fs;
      this.reliable := reliable;
    }

    method Send(op: Op) returns (ok: bool)
      modifies this
      ensures ok ==> Can(old(fs), op) && fs == Apply(old(fs), op)
      ensures !ok ==> fs == old(fs) || (Can(old(fs), op) && fs == Apply(old(fs), op))
      ensures reliable ==> (ok <==> Can(old(fs), op)) && (!ok ==> fs == old(fs))
    {
      var refused, lost: bool := *, *;
      if !Can(fs, op) || (refused && !reliable) {
        return false;
      }
      fs := Apply(fs, op);
      ok := reliable || !lost;
    }

    method Metadata(path: Path) returns (ok: bool, isDir: bool)
      ensures ok ==> path in fs && isDir == fs[path].DirNode?
      ensures reliable ==> (ok <==> path in fs)
    {
      var refused: bool := *;
      ok := path in fs && (reliable || !refused);
      isDir := ok && fs[path].DirNode?;
    }

    method ReadDir(dir: Path) returns (ok: bool, entries: seq<RemoteEntry>)
      ensures ok ==> dir in fs && fs[dir].DirNode? && Listing(fs, dir, entries)
      ensures reliable ==> (ok <==> dir in fs && fs[dir].DirNode?)
    {
      entries := [];
      var refused: bool := *;
      ok := dir in fs && fs[dir].DirNode? && (reliable || !refused);
      if !ok {
        return;
      }
      var left := set p | p in fs && DirectChild(dir, p);
      while left != {}
        invariant left <= fs.Keys
        invariant forall p :: p in left ==> DirectChild(dir, p) && RemoteEntry(p, fs[p].DirNode?) !in entries
        invariant forall e :: e in entries ==>
          e.path in fs && e.path !in left && DirectChild(dir, e.path) && e.isDir == fs[e.path].DirNode?
        invariant forall p :: p in fs && DirectChild(dir, p) ==> p in left || RemoteEntry(p, fs[p].DirNode?) in entries
        invariant forall i, j :: 0 <= i < j < |entries| ==> entries[i].path != entries[j].path
      {
        var p :| p in left;
        var e := RemoteEntry(p, fs[p].DirNode?);
        forall i | 0 <= i < |entries| ensures entries[i].path != p {
          assert entries[i] in entries;
        }
        entries, left := entries + [e], left - {p};
      }
    }

    /** Removes the directory tree at `root` with an explicit stack: a directory is listed when
        first popped and removed when popped again. `listed` records the listings. */
    method DeleteTree(root: Path) returns (ok: bool, ghost listed: seq<Path>)
      requires Closed(fs, root)
      modifies this
      ensures ok ==> fs == Without(old(fs), root)
      ensures Shrunk(old(fs), fs, root)
      ensures reliable && root in old(fs) && old(fs)[root].DirNode? ==> ok
      ensures ok ==> ListsAll(old(fs), root, listed)
      ensures Distinct(listed)
    {
      hide Tidy, Shrunk, Closed, Listed, Distinct, AllDirs, Within, Below, FramesOf, Unlisted, Listing, Leaf, Without,
        KindsKnown, ListsAll;
      ghost var fs0 := fs;
      var stack := [Frame(root, false)];
      listed := [];
      NothingDone(fs0, root);
      ghost var isDir := root in fs && fs[root].DirNode?;
      if isDir {
        StartTidy(fs0, root);
        RootIsDir(fs0, root);
      }
      while stack != []
        invariant Shrunk(fs0, fs, root) && Distinct(listed)
        invariant isDir ==> Tidy(fs0, fs, root, stack) && AllDirs(fs, stack) && Listed(fs0, root, stack, listed)
        invariant !isDir ==> stack == [Frame(root, false)] && fs == fs0
        decreases Unlisted(fs0, listed), |stack|
      {
        var frame, base := stack[|stack| - 1], stack[..|stack| - 1];
        assert stack == base + [frame];
        if isDir {
          TopIsDir(fs0, fs, root, base, frame);
        }
        stack := base;
        if frame.visited {
          DirIsEmpty(fs0, fs, root, base, frame.path);
          VisitedFrameDone(fs0, fs, root, base, frame, listed);
          assert Can(fs, RemoveDir(frame.path));
          TidyIsShrunk(fs0, fs - {frame.path}, root, base);
          ok := Send(RemoveDir(frame.path));
          if !ok {
            return;
          }
        } else {
          stack := base + [Frame(frame.path, true)];
          var listing, entries := ReadDir(frame.path);
          if !listing {
            return false, listed;
          }
          Expand(fs0, fs, root, base, frame.path, entries);
          ListOnce(fs0, fs, root, base, frame.path, entries, listed);
          ListingKinds(fs, frame.path, entries);
          ListedLess(fs0, listed, frame.path);
          listed := listed + [frame.path];
          ListedIsDistinct(fs0, root, base + [Frame(frame.path, true)] + FramesOf(entries), listed);
          ok, stack := RemoveFiles(root, fs0, base + [Frame(frame.path, true)], entries, listed);
          if !ok {
            return;
          }
        }
      }
      NothingLeft(fs0, fs, root, listed);
      ok := true;
    }

    /** The inner loop over one listing: files are removed at once, directories are stacked. */
    method RemoveFiles(root: Path, ghost fs0: Fs, frames: seq<Frame>, entries: seq<RemoteEntry>, ghost listed: seq<Path>)
      returns (ok: bool, stack: seq<Frame>)
      requires Closed(fs0, root) && Tidy(fs0, fs, root, frames + FramesOf(entries)) && Shrunk(fs0, fs, root)
      requires AllDirs(fs, frames) && KindsKnown(fs, entries)
      requires Listed(fs0, root, frames + FramesOf(entries), listed)
      modifies this
      ensures Shrunk(fs0, fs, root)
      ensures ok ==> Tidy(fs0, fs, root, stack) && AllDirs(fs, stack) && Listed(fs0, root, stack, listed)
      ensures reliable ==> ok
    {
      hide Tidy, Shrunk, Closed, Listed, Distinct, AllDirs, Within, Below, FramesOf, KindsKnown, Leaf;
      stack := frames;
      var i := 0;
      assert entries[0..] == entries;
      while i < |entries|
        invariant 0 <= i <= |entries|
        invariant Tidy(fs0, fs, root, stack + FramesOf(entries[i..])) && Shrunk(fs0, fs, root)
        invariant AllDirs(fs, stack) && KindsKnown(fs, entries[i..])
        invariant Listed(fs0, root, stack + FramesOf(entries[i..]), listed)
      {
        var entry, rest := entries[i], entries[i + 1..];
        assert entries[i..] == [entry] + rest;
        NextEntry(fs, stack, entry, rest);
        if entry.isDir {
          MoreDirs(fs, stack, entry.path);
          stack := stack + [Frame(entry.path, false)];
        } else {
          FileIsLeaf(fs0, fs, root, stack, entry.path, FramesOf(rest));
          FewerFrames(fs0, fs, root, stack, Frame(entry.path, false), FramesOf(rest), listed);
          OthersKept(fs, stack, entry.path, rest);
          TidyIsShrunk(fs0, fs - {entry.path}, root, stack + FramesOf(rest));
          assert Can(fs, RemoveFile(entry.path));
          var removed := Send(RemoveFile(entry.path));
          if !removed {
            return false, stack;
          }
        }
        i := i + 1;
      }
      assert entries[i..] == [];
      NoFrames(stack);
      ok := true;
    }
  }

  // ---- The walk's invariant ----

  datatype Frame = Frame(path: Path, visited: bool)

  function FramesOf(entries: seq<RemoteEntry>): (frames: seq<Frame>)
    ensures |frames| == |entries|
    ensures forall i :: 0 <= i < |entries| ==> frames[i] == Frame(entries[i].path, false)
  {
    seq(|entries|, i requires 0 <= i < |entries| => Frame(entries[i].path, false))
  }

  /** The frame that will take care of removing `p`. */
  predicate Accounts(frame: Frame, p: Path) {
    if frame.visited then p == frame.path else Within(frame.path, p)
  }

  /** `later` was pushed after `frame`. */
  predicate Ordered(frame: Frame, later: Frame) {
    if frame.visited then !Within(later.path, frame.path) else Unrelated(frame.path, later.path)
  }

  ghost predicate Accounted(frames: seq<Frame>, p: Path) {
    exists f :: f in frames && Accounts(f, p)
  }

  /** Only items under `root` are gone. */
  ghost predicate Shrunk(fs0: Fs, fs: Fs, root: Path) {
    && (forall p :: p in fs ==> p in fs0 && fs[p] == fs0[p])
    && (forall p :: p in fs0 && !Within(root, p) ==> p in fs)
  }

  ghost predicate AllAccounted(fs: Fs, root: Path, frames: seq<Frame>) {
    forall p :: p in fs && Within(root, p) ==> Accounted(frames, p)
  }

  ghost predicate Placed(fs: Fs, root: Path, frames: seq<Frame>) {
    forall f :: f in frames ==> Within(root, f.path) && f.path in fs
  }

  ghost predicate Untouched(fs0: Fs, fs: Fs, dir: Path) {
    forall p :: p in fs0 && Within(dir, p) ==> p in fs
  }

  /** Nothing is missing under an unvisited frame. */
  ghost predicate Intact(fs0: Fs, fs: Fs, frames: seq<Frame>) {
    forall f :: f in frames && !f.visited ==> Untouched(fs0, fs, f.path)
  }

  ghost predicate InOrder(frames: seq<Frame>) {
    forall i, j :: 0 <= i < j < |frames| ==> Ordered(frames[i], frames[j])
  }

  ghost predicate Tidy(fs0: Fs, fs: Fs, root: Path, frames: seq<Frame>) {
    && Shrunk(fs0, fs, root) && AllAccounted(fs, root, frames) && Placed(fs, root, frames)
    && Intact(fs0, fs, frames) && InOrder(frames)
  }

  ghost predicate Owed(frames: seq<Frame>, d: Path) {
    exists f :: f in frames && !f.visited && Within(f.path, d)
  }

  predicate Distinct(paths: seq<Path>) {
    forall i, j :: 0 <= i < j < |paths| ==> paths[i] != paths[j]
  }

  /** Every directory is listed at most once, namely when its frame turns visited. */
  ghost predicate Listed(fs0: Fs, root: Path, frames: seq<Frame>, listed: seq<Path>) {
    && Distinct(listed)
    && (forall d :: d in listed ==> d in fs0 && fs0[d].DirNode? && Within(root, d) && !Owed(frames, d))
    && (forall d :: d in fs0 && fs0[d].DirNode? && Within(root, d) ==> d in listed || Owed(frames, d))
  }

  lemma NothingDone(fs0: Fs, root: Path)
    ensures Shrunk(fs0, fs0, root) && Distinct([])
  {
  }

  lemma RootIsDir(fs0: Fs, root: Path)
    requires root in fs0 && fs0[root].DirNode?
    ensures AllDirs(fs0, [Frame(root, false)])
  {
  }

  lemma StartTidy(fs0: Fs, root: Path)
    requires root in fs0
    ensures Tidy(fs0, fs0, root, [Frame(root, false)])
    ensures Listed(fs0, root, [Frame(root, false)], [])
  {
    hide Within;
    var frame := Frame(root, false);
    WithinSelf(root);
    assert frame in [frame];
    forall p | p in fs0 && Within(root, p) ensures Accounted([frame], p) {
    }
    forall d | d in fs0 && Within(root, d) ensures Owed([frame], d) {
    }
    var none: seq<Path> := [];
    assert Listed(fs0, root, [frame], none) by {
      hide Owed;
    }
  }

  /** A frame that is neither `x` nor after it precedes it. */
  lemma OrderedBefore(before: seq<Frame>, x: Frame, after: seq<Frame>)
    requires InOrder(before + [x] + after)
    ensures InOrder(before + after)
    ensures forall f :: f in before ==> Ordered(f, x)
    ensures forall f :: f in after ==> Ordered(x, f)
  {
    var frames, rest := before + [x] + after, before + after;
    assert frames[|before|] == x;
    forall f | f in before ensures Ordered(f, x) {
      var i :| 0 <= i < |before| && before[i] == f;
      assert frames[i] == f;
    }
    forall f | f in after ensures Ordered(x, f) {
      var i :| 0 <= i < |after| && after[i] == f;
      assert frames[|before| + 1 + i] == f;
    }
    forall i, j | 0 <= i < j < |rest| ensures Ordered(rest[i], rest[j]) {
      assert rest[i] == frames[if i < |before| then i else i + 1];
      assert rest[j] == frames[if j < |before| then j else j + 1];
    }
  }

  lemma EmptiedBy(fs: Fs, root: Path, base: seq<Frame>, dir: Path, p: Path)
    requires AllAccounted(fs, root, base + [Frame(dir, true)]) && Within(root, dir)
    requires forall f :: f in base ==> Ordered(f, Frame(dir, true))
    requires p in fs
    ensures !Below(dir, p)
    ensures p != dir && Within(root, p) ==> Accounted(base, p)
  {
    if Below(dir, p) {
      BelowChain(root, dir, p);
    }
    if Within(root, p) && p != dir {
      var f :| f in base + [Frame(dir, true)] && Accounts(f, p);
      assert f in base;
      if !f.visited && Below(dir, p) {
        AncestorsAreComparable(f.path, dir, p);
      }
    }
  }

  /** Frames ordered with respect to `x` neither are `x` nor cover it. */
  lemma FrameIsApart(f: Frame, x: Frame)
    requires Ordered(f, x) || (!x.visited && Ordered(x, f))
    ensures f.path != x.path
    ensures !f.visited ==> !Within(f.path, x.path)
  {
  }

  /** Dropping one frame together with its item. */
  lemma DropFrame(fs0: Fs, fs: Fs, root: Path, before: seq<Frame>, x: Frame, after: seq<Frame>)
    requires Tidy(fs0, fs, root, before + [x] + after)
    requires after == [] || !x.visited
    requires AllAccounted(fs - {x.path}, root, before + after)
    ensures Tidy(fs0, fs - {x.path}, root, before + after)
  {
    hide Within, Ordered, AllAccounted, InOrder;
    var frames, rest, fs' := before + [x] + after, before + after, fs - {x.path};
    OrderedBefore(before, x, after);
    forall f | f in rest ensures f in frames && f.path != x.path && (!f.visited ==> !Within(f.path, x.path)) {
      FrameIsApart(f, x);
    }
    assert x in frames;
    assert Placed(fs', root, rest);
    assert Intact(fs0, fs', rest);
    assert Shrunk(fs0, fs', root);
  }

  lemma DirIsEmpty(fs0: Fs, fs: Fs, root: Path, base: seq<Frame>, dir: Path)
    requires Tidy(fs0, fs, root, base + [Frame(dir, true)])
    ensures Leaf(fs, dir)
    ensures Tidy(fs0, fs - {dir}, root, base)
  {
    hide Within, Below, Accounted, Ordered;
    var x := Frame(dir, true);
    assert x in base + [x];
    assert base + [x] + [] == base + [x] && base + [] == base;
    OrderedBefore(base, x, []);
    forall p | p in fs ensures !Below(dir, p) && (p != dir && Within(root, p) ==> Accounted(base, p)) {
      EmptiedBy(fs, root, base, dir, p);
    }
    DropFrame(fs0, fs, root, base, x, []);
  }

  lemma NothingBelowAFile(fs0: Fs, root: Path, file: Path)
    requires Closed(fs0, root) && Within(root, file) && file in fs0 && !fs0[file].DirNode?
    ensures forall p :: p in fs0 ==> !Below(file, p)
  {
  }

  lemma FileIsLeaf(fs0: Fs, fs: Fs, root: Path, before: seq<Frame>, file: Path, after: seq<Frame>)
    requires Tidy(fs0, fs, root, before + [Frame(file, false)] + after) && Closed(fs0, root)
    requires file in fs && !fs[file].DirNode?
    ensures Leaf(fs, file)
    ensures Tidy(fs0, fs - {file}, root, before + after)
  {
    hide Closed, Below, Ordered, InOrder;
    var x := Frame(file, false);
    assert x in before + [x] + after;
    NothingBelowAFile(fs0, root, file);
    forall p | p in fs && p != file && Within(root, p) ensures Accounted(before + after, p) {
      var f :| f in before + [x] + after && Accounts(f, p);
      assert f in before + after;
    }
    DropFrame(fs0, fs, root, before, x, after);
  }

  lemma FewerFrames(fs0: Fs, fs: Fs, root: Path, before: seq<Frame>, frame: Frame, after: seq<Frame>, listed: seq<Path>)
    requires Listed(fs0, root, before + [frame] + after, listed)
    requires Tidy(fs0, fs, root, before + [frame] + after) && Closed(fs0, root)
    requires frame.path in fs && !fs[frame.path].DirNode?
    ensures Listed(fs0, root, before + after, listed)
  {
    hide Closed, Below, Distinct, AllAccounted, Intact, InOrder;
    assert frame in before + [frame] + after;
    assert Within(root, frame.path) && frame.path in fs0 && fs0[frame.path] == fs[frame.path];
    NothingBelowAFile(fs0, root, frame.path);
    forall d | d in fs0 && fs0[d].DirNode? ensures Owed(before + [frame] + after, d) <==> Owed(before + after, d) {
      if Owed(before + [frame] + after, d) {
        var f :| f in before + [frame] + after && !f.visited && Within(f.path, d);
        assert f != frame;
        assert f in before + after;
      }
      if Owed(before + after, d) {
        var f :| f in before + after && !f.visited && Within(f.path, d);
        assert f in before + [frame] + after;
      }
    }
  }

  /** The listed child of `dir` that contains `p`. */
  lemma ChildFrame(fs0: Fs, fs: Fs, root: Path, dir: Path, entries: seq<RemoteEntry>, p: Path) returns (f: Frame)
    requires Closed(fs0, root) && Within(root, dir) && Listing(fs, dir, entries)
    requires Untouched(fs0, fs, dir)
    requires p in fs0 && Below(dir, p)
    ensures f in FramesOf(entries) && Within(f.path, p)
  {
    var child := DirectChildOf(dir, p);
    BelowChain(root, dir, child);
    assert child in fs;
    var e := RemoteEntry(child, fs[child].DirNode?);
    assert e in entries;
    var k :| 0 <= k < |entries| && entries[k] == e;
    f := FramesOf(entries)[k];
  }

  lemma FrameIsChild(fs: Fs, dir: Path, entries: seq<RemoteEntry>, f: Frame)
    requires Listing(fs, dir, entries) && f in FramesOf(entries)
    ensures !f.visited && DirectChild(dir, f.path) && f.path in fs
  {
    var k :| 0 <= k < |entries| && FramesOf(entries)[k] == f;
    assert entries[k] in entries;
  }

  /** Listing a directory replaces its frame by one for itself and one per child. */
  lemma Expand(fs0: Fs, fs: Fs, root: Path, base: seq<Frame>, dir: Path, entries: seq<RemoteEntry>)
    requires Tidy(fs0, fs, root, base + [Frame(dir, false)]) && Closed(fs0, root)
    requires Listing(fs, dir, entries)
    ensures Tidy(fs0, fs, root, base + [Frame(dir, true)] + FramesOf(entries))
  {
    hide Closed, Listing, FramesOf, Within, Below, Shrunk, AllAccounted, InOrder, Untouched;
    var x, children := Frame(dir, false), FramesOf(entries);
    assert x in base + [x];
    ExpandAccounted(fs0, fs, root, base, dir, entries);
    ExpandInOrder(fs, base, dir, entries);
    forall f | f in children ensures Within(root, f.path) && f.path in fs && Untouched(fs0, fs, f.path) {
      ChildIsPlaced(fs, root, dir, entries, f);
      UntouchedInside(fs0, fs, dir, f.path);
    }
    PlacedExpanded(fs, root, base, dir, children);
    IntactExpanded(fs0, fs, base, dir, children);
  }

  lemma ExpandAccounted(fs0: Fs, fs: Fs, root: Path, base: seq<Frame>, dir: Path, entries: seq<RemoteEntry>)
    requires AllAccounted(fs, root, base + [Frame(dir, false)]) && Shrunk(fs0, fs, root)
    requires Closed(fs0, root) && Within(root, dir) && Listing(fs, dir, entries) && Untouched(fs0, fs, dir)
    ensures AllAccounted(fs, root, base + [Frame(dir, true)] + FramesOf(entries))
  {
    hide Closed, Listing, FramesOf, Within, Below, Untouched;
    var x, frames' := Frame(dir, false), base + [Frame(dir, true)] + FramesOf(entries);
    forall p | p in fs && Within(root, p) ensures Accounted(frames', p) {
      var f :| f in base + [x] && Accounts(f, p);
      if f == x {
        DirAccounts(fs0, fs, root, dir, entries, p);
        assert Frame(dir, true) in frames';
      } else {
        assert f in frames';
      }
    }
  }

  lemma PlacedExpanded(fs: Fs, root: Path, base: seq<Frame>, dir: Path, children: seq<Frame>)
    requires Placed(fs, root, base + [Frame(dir, false)])
    requires forall f :: f in children ==> Within(root, f.path) && f.path in fs
    ensures Placed(fs, root, base + [Frame(dir, true)] + children)
  {
    hide Within;
    assert Frame(dir, false) in base + [Frame(dir, false)];
    forall f | f in base + [Frame(dir, true)] + children ensures Within(root, f.path) && f.path in fs {
      if f in base {
        assert f in base + [Frame(dir, false)];
      }
    }
  }

  lemma IntactExpanded(fs0: Fs, fs: Fs, base: seq<Frame>, dir: Path, children: seq<Frame>)
    requires Intact(fs0, fs, base + [Frame(dir, false)])
    requires forall f :: f in children ==> Untouched(fs0, fs, f.path)
    ensures Intact(fs0, fs, base + [Frame(dir, true)] + children)
  {
    hide Untouched;
    forall f | f in base + [Frame(dir, true)] + children && !f.visited ensures Untouched(fs0, fs, f.path) {
      if f !in children {
        assert f in base;
        assert f in base + [Frame(dir, false)];
      }
    }
  }

  lemma UntouchedInside(fs0: Fs, fs: Fs, dir: Path, child: Path)
    requires Untouched(fs0, fs, dir) && Within(dir, child)
    ensures Untouched(fs0, fs, child)
  {
    forall p | p in fs0 && Within(child, p) ensures p in fs {
      BelowChain(dir, child, p);
    }
  }

  lemma DirAccounts(fs0: Fs, fs: Fs, root: Path, dir: Path, entries: seq<RemoteEntry>, p: Path)
    requires Closed(fs0, root) && Within(root, dir) && Listing(fs, dir, entries)
    requires Untouched(fs0, fs, dir)
    requires p in fs0 && Within(dir, p)
    ensures p == dir || exists f :: f in FramesOf(entries) && Accounts(f, p)
  {
    if p != dir {
      var f := ChildFrame(fs0, fs, root, dir, entries, p);
      FrameIsChild(fs, dir, entries, f);
    }
  }

  lemma ChildIsPlaced(fs: Fs, root: Path, dir: Path, entries: seq<RemoteEntry>, f: Frame)
    requires Within(root, dir) && Listing(fs, dir, entries) && f in FramesOf(entries)
    ensures Within(root, f.path) && f.path in fs && !f.visited && Within(dir, f.path)
  {
    FrameIsChild(fs, dir, entries, f);
    BelowChain(root, dir, f.path);
  }

  lemma ExpandInOrder(fs: Fs, base: seq<Frame>, dir: Path, entries: seq<RemoteEntry>)
    requires InOrder(base + [Frame(dir, false)]) && Listing(fs, dir, entries)
    ensures InOrder(base + [Frame(dir, true)] + FramesOf(entries))
  {
    var frames, frames' := base + [Frame(dir, false)], base + [Frame(dir, true)] + FramesOf(entries);
    assert base + [Frame(dir, false)] + [] == frames && base + [] == base;
    OrderedBefore(base, Frame(dir, false), []);
    forall i | 0 <= i < |base| ensures Ordered(base[i], Frame(dir, false)) {
    }
    forall i | 0 <= i < |entries| ensures DirectChild(dir, entries[i].path) {
      assert entries[i] in entries;
    }
    forall i, j | 0 <= i < j < |frames'| ensures Ordered(frames'[i], frames'[j]) {
      ExpandedOrder(base, dir, entries, i, j);
    }
  }

  lemma ExpandedOrder(base: seq<Frame>, dir: Path, entries: seq<RemoteEntry>, i: nat, j: nat)
    requires i < j < |base| + 1 + |entries|
    requires forall i, j :: 0 <= i < j < |base| ==> Ordered(base[i], base[j])
    requires forall i :: 0 <= i < |base| ==> Ordered(base[i], Frame(dir, false))
    requires forall i :: 0 <= i < |entries| ==> DirectChild(dir, entries[i].path)
    requires forall i, j :: 0 <= i < j < |entries| ==> entries[i].path != entries[j].path
    ensures var frames := base + [Frame(dir, true)] + FramesOf(entries);
      Ordered(frames[i], frames[j])
  {
    if j > |base| {
      var child := entries[j - |base| - 1].path;
      if i < |base| {
        if base[i].visited {
          if Within(child, base[i].path) {
            BelowChain(dir, child, base[i].path);
          }
        } else {
          UnrelatedInside(dir, base[i].path, child);
        }
      } else if i > |base| {
        var other := entries[i - |base| - 1].path;
        assert child[|dir| + 1..] != "" || child == dir + "/";
        DirectChildrenUnrelated(dir, child, other);
      }
    }
  }

  lemma DirectChildrenUnrelated(dir: Path, p: Path, q: Path)
    requires DirectChild(dir, p) && DirectChild(dir, q) && p != q
    ensures Unrelated(p, q)
  {
    DirectChildNotBelow(dir, p, q);
    DirectChildNotBelow(dir, q, p);
  }

  lemma DirectChildNotBelow(dir: Path, p: Path, q: Path)
    requires DirectChild(dir, p) && DirectChild(dir, q)
    ensures !Below(p, q)
  {
    if |p| < |q| {
      assert q[|p|] == q[|dir| + 1..][|p| - |dir| - 1];
    }
  }

  lemma ListOnce(fs0: Fs, fs: Fs, root: Path, base: seq<Frame>, dir: Path, entries: seq<RemoteEntry>, listed: seq<Path>)
    requires Tidy(fs0, fs, root, base + [Frame(dir, false)]) && Closed(fs0, root) && Listing(fs, dir, entries)
    requires Listed(fs0, root, base + [Frame(dir, false)], listed)
    requires fs0[dir].DirNode?
    ensures Listed(fs0, root, base + [Frame(dir, true)] + FramesOf(entries), listed + [dir])
    ensures dir !in listed
  {
    hide Closed, Listing, FramesOf, Within, Below, DirectChild, AllAccounted, InOrder, Untouched;
    var x, children := Frame(dir, false), FramesOf(entries);
    var frames, frames' := base + [x], base + [Frame(dir, true)] + children;
    assert x in frames;
    assert Owed(frames, dir) by { WithinSelf(dir); }
    forall d | d in fs0 && fs0[d].DirNode? && Within(root, d) ensures d in listed + [dir] || Owed(frames', d) {
      if d !in listed {
        var f :| f in frames && !f.visited && Within(f.path, d);
        if f == x {
          OwedByChild(fs0, fs, root, dir, entries, d);
        } else {
          assert f in frames';
        }
      }
    }
    forall d | d in listed + [dir] ensures !Owed(frames', d) {
      if Owed(frames', d) {
        var f :| f in frames' && !f.visited && Within(f.path, d);
        NotOwed(fs, root, base, dir, entries, f, d);
      }
    }
    assert forall d :: d in listed + [dir] ==> d in listed || d == dir;
    assert dir !in listed;
    assert Distinct(listed + [dir]);
    assert dir in fs0 && Within(root, dir);
  }

  ghost predicate AllDirs(fs: Fs, frames: seq<Frame>) {
    forall f :: f in frames ==> f.path in fs && fs[f.path].DirNode?
  }

  predicate KindsKnown(fs: Fs, entries: seq<RemoteEntry>) {
    && (forall e :: e in entries ==> e.path in fs && e.isDir == fs[e.path].DirNode?)
    && (forall i, j :: 0 <= i < j < |entries| ==> entries[i].path != entries[j].path)
  }

  ghost predicate ListsAll(fs: Fs, root: Path, listed: seq<Path>) {
    forall d :: d in listed <==> d in fs && fs[d].DirNode? && Within(root, d)
  }

  ghost function Unlisted(fs0: Fs, listed: seq<Path>): nat {
    |fs0.Keys - (set d | d in listed)|
  }

  lemma ListedLess(fs0: Fs, listed: seq<Path>, dir: Path)
    requires dir in fs0 && dir !in listed
    ensures Unlisted(fs0, listed + [dir]) < Unlisted(fs0, listed)
  {
    var before, after := fs0.Keys - (set d | d in listed), fs0.Keys - (set d | d in listed + [dir]);
    assert after + {dir} == before;
  }

  lemma TopIsDir(fs0: Fs, fs: Fs, root: Path, base: seq<Frame>, frame: Frame)
    requires AllDirs(fs, base + [frame]) && Shrunk(fs0, fs, root)
    ensures AllDirs(fs, base) && frame.path in fs && fs[frame.path].DirNode?
    ensures frame.path in fs0 && fs0[frame.path].DirNode?
    ensures AllDirs(fs, base + [Frame(frame.path, true)])
  {
    assert frame in base + [frame];
    assert forall f :: f in base ==> f in base + [frame];
  }

  lemma ListedIsDistinct(fs0: Fs, root: Path, frames: seq<Frame>, listed: seq<Path>)
    requires Listed(fs0, root, frames, listed)
    ensures Distinct(listed)
  {
  }

  lemma ListingKinds(fs: Fs, dir: Path, entries: seq<RemoteEntry>)
    requires Listing(fs, dir, entries)
    ensures KindsKnown(fs, entries)
  {
  }

  lemma VisitedFrameDone(fs0: Fs, fs: Fs, root: Path, base: seq<Frame>, frame: Frame, listed: seq<Path>)
    requires Tidy(fs0, fs, root, base + [frame]) && AllDirs(fs, base) && frame.visited
    requires Listed(fs0, root, base + [frame], listed)
    ensures AllDirs(fs - {frame.path}, base) && Listed(fs0, root, base, listed)
  {
    hide Within, Shrunk, AllAccounted, Placed, Intact, Distinct;
    assert base + [frame] + [] == base + [frame];
    OrderedBefore(base, frame, []);
    forall f | f in base ensures f.path != frame.path {
      FrameIsApart(f, frame);
    }
    forall d ensures Owed(base + [frame], d) <==> Owed(base, d) {
      if Owed(base, d) {
        var f :| f in base && !f.visited && Within(f.path, d);
        assert f in base + [frame];
      }
    }
  }

  lemma TidyIsShrunk(fs0: Fs, fs: Fs, root: Path, frames: seq<Frame>)
    requires Tidy(fs0, fs, root, frames)
    ensures Shrunk(fs0, fs, root)
  {
  }

  lemma NextEntry(fs: Fs, stack: seq<Frame>, entry: RemoteEntry, rest: seq<RemoteEntry>)
    requires KindsKnown(fs, [entry] + rest)
    ensures stack + FramesOf([entry] + rest) == stack + [Frame(entry.path, false)] + FramesOf(rest)
    ensures entry.path in fs && entry.isDir == fs[entry.path].DirNode?
    ensures KindsKnown(fs, rest) && forall e :: e in rest ==> e.path != entry.path
  {
    var all := [entry] + rest;
    assert all[0] in all;
    forall e | e in rest ensures e in all && e.path != entry.path {
      var i :| 0 <= i < |rest| && rest[i] == e;
      assert all[i + 1] == e;
    }
    forall i, j | 0 <= i < j < |rest| ensures rest[i].path != rest[j].path {
      assert all[i + 1] == rest[i] && all[j + 1] == rest[j];
    }
  }

  lemma MoreDirs(fs: Fs, stack: seq<Frame>, dir: Path)
    requires AllDirs(fs, stack) && dir in fs && fs[dir].DirNode?
    ensures AllDirs(fs, stack + [Frame(dir, false)])
  {
  }

  lemma OthersKept(fs: Fs, stack: seq<Frame>, file: Path, rest: seq<RemoteEntry>)
    requires AllDirs(fs, stack) && file in fs && !fs[file].DirNode?
    requires KindsKnown(fs, rest) && forall e :: e in rest ==> e.path != file
    ensures AllDirs(fs - {file}, stack) && KindsKnown(fs - {file}, rest)
  {
  }

  lemma NoFrames(stack: seq<Frame>)
    ensures stack + FramesOf([]) == stack
  {
  }

  lemma WithinSelf(dir: Path)
    ensures Within(dir, dir)
  {
  }

  lemma OwedByChild(fs0: Fs, fs: Fs, root: Path, dir: Path, entries: seq<RemoteEntry>, d: Path)
    requires Closed(fs0, root) && Within(root, dir) && Listing(fs, dir, entries)
    requires Untouched(fs0, fs, dir)
    requires d in fs0 && Within(dir, d)
    ensures d == dir || Owed(FramesOf(entries), d)
  {
    if d != dir {
      var f := ChildFrame(fs0, fs, root, dir, entries, d);
      FrameIsChild(fs, dir, entries, f);
    }
  }

  lemma NotOwed(fs: Fs, root: Path, base: seq<Frame>, dir: Path, entries: seq<RemoteEntry>, f: Frame, d: Path)
    requires InOrder(base + [Frame(dir, false)]) && Listing(fs, dir, entries)
    requires !f.visited && Within(f.path, d)
    ensures f in base ==> d != dir
    ensures f in FramesOf(entries) ==> Within(dir, d) && d != dir
  {
    if f in base {
      assert base + [Frame(dir, false)] + [] == base + [Frame(dir, false)];
      OrderedBefore(base, Frame(dir, false), []);
    }
    if f in FramesOf(entries) {
      FrameIsChild(fs, dir, entries, f);
      BelowChain(dir, f.path, d);
    }
  }

  lemma NothingLeft(fs0: Fs, fs: Fs, root: Path, listed: seq<Path>)
    requires Tidy(fs0, fs, root, []) && Listed(fs0, root, [], listed)
    ensures fs == Without(fs0, root)
    ensures ListsAll(fs0, root, listed)
  {
    hide Within, Distinct;
    forall p | p in fs ensures !Within(root, p) {
      assert !Accounted([], p);
    }
    forall d ensures !Owed([], d) {
    }
  }
}
