/** The two walks over the local tree in a directory upload: the one that adds up its size and the
    one that sends it, against a server that does whatever is asked and possible. */
module DirectoryUpload {
  import opened Basics
  import opened Paths
  import opened RemoteFs
  import opened LocalTree
  import opened SftpServer

  const U64_LIMIT: nat := 0x1_0000_0000_0000_0000
  const CHUNK: nat := 64 * 1024

  ghost predicate HasSymlink(node: LocalNode) {
    node.Symlink? || (node.Dir? && exists i :: 0 <= i < |node.entries| && HasSymlink(node.entries[i].node))
  }

  ghost predicate SomeSymlink(entries: seq<Entry>) {
    exists i :: 0 <= i < |entries| && HasSymlink(entries[i].node)
  }

  ghost function TreeBytes(node: LocalNode): nat
    decreases node, 1
  {
    match node
    case File(content) => |content|
    case Dir(entries) => EntryBytes(entries)
    case _ => 0
  }

  ghost function EntryBytes(entries: seq<Entry>): nat
    decreases entries, 0
  {
    if entries == [] then 0 else TreeBytes(entries[0].node) + EntryBytes(entries[1..])
  }

  // ---- The size walk ----

  ghost function StackBytes(stack: seq<LocalNode>): nat {
    if stack == [] then 0 else TreeBytes(stack[|stack| - 1]) + StackBytes(stack[..|stack| - 1])
  }

  ghost predicate StackSymlink(stack: seq<LocalNode>) {
    exists i :: 0 <= i < |stack| && HasSymlink(stack[i])
  }

  function Saturated(n: nat): nat {
    if n < U64_LIMIT then n else U64_LIMIT - 1
  }

  /** The total size of the regular files below `root`, as a saturating 64-bit sum; fails exactly
      when there is a symbolic link anywhere below `root`. */
  method LocalTreeSize(root: LocalNode) returns (size: Option<nat>)
    requires root.Dir?
    ensures size.None? <==> HasSymlink(root)
    ensures size.Some? ==> size.value == Saturated(TreeBytes(root))
  {
    hide HasSymlink, TreeBytes, EntryBytes, StackBytes, EntryCount, NodeCount, SomeSymlink, StackSymlink;
    var total: nat := 0;
    ghost var sum: nat := 0;
    var stack := [root];
    StartCounts(root);
    while stack != []
      invariant forall i :: 0 <= i < |stack| ==> stack[i].Dir?
      invariant total == Saturated(sum) && sum + StackBytes(stack) == TreeBytes(root)
      invariant StackSymlink(stack) <==> HasSymlink(root)
      decreases NodeCount(stack)
    {
      var top := |stack| - 1;
      var entries := stack[top].entries;
      ghost var whole := stack;
      PopCount(stack);
      stack := stack[..top];
      PopSymlink(whole);
      var i := 0;
      assert entries[0..] == entries;
      while i < |entries|
        invariant 0 <= i <= |entries|
        invariant forall j :: 0 <= j < |stack| ==> stack[j].Dir?
        invariant total == Saturated(sum) && sum + StackBytes(stack) + EntryBytes(entries[i..]) == TreeBytes(root)
        invariant StackSymlink(stack) || SomeSymlink(entries[i..]) <==> HasSymlink(root)
        invariant NodeCount(stack) + EntryCount(entries[i..]) < NodeCount(whole)
      {
        var node := entries[i].node;
        FirstEntry(entries[i..]);
        assert entries[i..][1..] == entries[i + 1..];
        if node.Symlink? {
          SymlinkIsSymlink(node);
          return None;
        }
        if node.Dir? {
          PushNode(stack, node);
          stack := stack + [node];
        } else {
          FileBytes(node);
        }
        if node.File? {
          total := Saturated(total + |node.content|);
          sum := sum + |node.content|;
        }
        i := i + 1;
      }
      assert entries[i..] == [];
      NoEntries();
    }
    NoEntries();
    size := Some(total);
  }

  ghost function NodeSize(node: LocalNode): nat
    decreases node, 1
  {
    1 + if node.Dir? then EntryCount(node.entries) else 0
  }

  ghost function EntryCount(entries: seq<Entry>): nat
    decreases entries, 0
  {
    if entries == [] then 0 else NodeSize(entries[0].node) + EntryCount(entries[1..])
  }

  ghost function NodeCount(stack: seq<LocalNode>): nat {
    if stack == [] then 0 else NodeSize(stack[|stack| - 1]) + NodeCount(stack[..|stack| - 1])
  }

  lemma PopCount(stack: seq<LocalNode>)
    requires stack != [] && stack[|stack| - 1].Dir?
    ensures NodeCount(stack[..|stack| - 1]) + EntryCount(stack[|stack| - 1].entries) < NodeCount(stack)
    ensures StackBytes(stack) == EntryBytes(stack[|stack| - 1].entries) + StackBytes(stack[..|stack| - 1])
  {
  }

  lemma NoEntries()
    ensures !SomeSymlink([]) && !StackSymlink([]) && EntryBytes([]) == 0 && EntryCount([]) == 0 && StackBytes([]) == 0
  {
  }

  /** A 64-bit counter that has counted to `n`. */
  function Wrapped(n: nat): nat {
    n % U64_LIMIT
  }

  lemma WrappedSum(sum: nat, n: nat)
    ensures Wrapped(Wrapped(sum) + n) == Wrapped(sum + n)
  {
  }

  lemma PopSymlink(stack: seq<LocalNode>)
    requires stack != [] && stack[|stack| - 1].Dir?
    ensures StackSymlink(stack) <==> StackSymlink(stack[..|stack| - 1]) || SomeSymlink(stack[|stack| - 1].entries)
  {
    var top := |stack| - 1;
    if StackSymlink(stack[..top]) {
      var i :| 0 <= i < top && HasSymlink(stack[..top][i]);
      assert HasSymlink(stack[i]);
    }
    if SomeSymlink(stack[top].entries) {
      assert HasSymlink(stack[top]);
    }
    if StackSymlink(stack) && !HasSymlink(stack[top]) {
      var i :| 0 <= i < |stack| && HasSymlink(stack[i]);
      assert HasSymlink(stack[..top][i]);
    }
  }

  lemma PushNode(stack: seq<LocalNode>, node: LocalNode)
    ensures NodeCount(stack + [node]) == NodeCount(stack) + NodeSize(node)
    ensures StackBytes(stack + [node]) == StackBytes(stack) + TreeBytes(node)
    ensures StackSymlink(stack + [node]) <==> StackSymlink(stack) || HasSymlink(node)
  {
    var more := stack + [node];
    assert more[..|more| - 1] == stack;
    if StackSymlink(stack) {
      var i :| 0 <= i < |stack| && HasSymlink(stack[i]);
      assert HasSymlink(more[i]);
    }
    assert more[|stack|] == node;
  }

  lemma FirstEntry(entries: seq<Entry>)
    requires entries != []
    ensures SomeSymlink(entries) <==> HasSymlink(entries[0].node) || SomeSymlink(entries[1..])
    ensures EntryBytes(entries) == TreeBytes(entries[0].node) + EntryBytes(entries[1..])
    ensures EntryCount(entries) == NodeSize(entries[0].node) + EntryCount(entries[1..])
  {
    if SomeSymlink(entries[1..]) {
      var i :| 0 <= i < |entries| - 1 && HasSymlink(entries[1..][i].node);
      assert HasSymlink(entries[i + 1].node);
    }
    if SomeSymlink(entries) && !HasSymlink(entries[0].node) {
      var i :| 0 <= i < |entries| && HasSymlink(entries[i].node);
      assert HasSymlink(entries[1..][i - 1].node);
    }
  }

  // ---- The upload walk ----

  /** Every ancestor of what is there is there, as a directory. */
  ghost predicate Rooted(done: map<string, Node>) {
    forall k, d :: k in done && Below(d, k) ==> d in done && done[d].DirNode?
  }

  lemma ParentIsNearest(d: Path, dir: Path, name: string)
    requires PlainName(name) && Below(d, Child(dir, name))
    ensures Within(d, dir)
  {
    var p := Child(dir, name);
    assert p[|dir| + 1..] == name;
    assert forall i :: |dir| < i < |p| ==> p[i] == name[i - |dir| - 1];
    assert p[..|d|] == dir[..|d|];
  }

  /** Creating an item in a directory that is already there keeps everything rooted. */
  lemma RootedChild(done: map<string, Node>, dir: Path, name: string, node: Node)
    requires Rooted(done) && PlainName(name) && dir in done && done[dir].DirNode?
    requires Free(done, Child(dir, name))
    ensures Rooted(done[Child(dir, name) := node])
  {
    var p := Child(dir, name);
    forall k, d | k in done[p := node] && Below(d, k) ensures d in done[p := node] && done[p := node][d].DirNode? {
      if k == p {
        ParentIsNearest(d, dir, name);
      }
    }
  }

  lemma ClosedIfRooted(fs: Fs, part: Path)
    requires Rooted(Subtree(fs, part))
    ensures Closed(fs, part)
  {
    var done := Subtree(fs, part);
    forall d, p | p in fs && Within(part, d) && Below(d, p) ensures d in fs && fs[d].DirNode? {
      BelowChain(part, d, p);
      RelativePath(part, d);
      RelativePath(part, p);
      var x, k := d[|part|..], p[|part|..];
      assert k[..|x|] == d[|part|..] && k[|x|] == p[|d|];
      assert k in done && Below(x, k);
    }
  }

  function Nodes(items: seq<Item>): (nodes: seq<LocalNode>)
    ensures |nodes| == |items|
    ensures forall i :: 0 <= i < |items| ==> nodes[i] == items[i].node
  {
    seq(|items|, i requires 0 <= i < |items| => items[i].node)
  }

  /** `fs` differs from `fs0` at most at and under `root`. */
  ghost predicate OnlyWithin(fs0: Fs, fs: Fs, root: Path) {
    forall p :: !Within(root, p) ==> SameAt(fs0, fs, p)
  }

  ghost predicate Staged(fs: Fs, part: Path, walk: Walk, image: map<string, Node>) {
    var done := Subtree(fs, part);
    Covers(done, walk, image) && Apart(done, walk) && Rooted(done)
  }

  /** Copies one local file in chunks to the end of an open remote file. */
  method CopyStream(server: Server, path: Path, content: seq<byte>, count: nat) returns (transferred: nat)
    requires server.reliable && path in server.fs && server.fs[path] == FileNode([])
    modifies server
    ensures server.fs == old(server.fs)[path := FileNode(content)]
    ensures transferred == if content == [] then count else Wrapped(count + |content|)
  {
    var sent := 0;
    transferred := count;
    while sent < |content|
      invariant 0 <= sent <= |content|
      invariant path in server.fs && server.fs == old(server.fs)[path := FileNode(content[..sent])]
      invariant transferred == if sent == 0 then count else Wrapped(count + sent)
    {
      var size :| 1 <= size <= CHUNK && size <= |content| - sent;
      var chunk := content[sent..sent + size];
      assert content[..sent] + chunk == content[..sent + size];
      var ok := server.Send(Append(path, chunk));
      WrappedSum(count + sent, size);
      transferred := Wrapped(transferred + size);
      sent := sent + size;
    }
    assert content[..sent] == content;
  }

  lemma FreeIsVacant(fs: Fs, part: Path, at: string)
    requires Free(Subtree(fs, part), at) && Within(part, part + at)
    ensures Vacant(fs, part + at)
  {
    hide Subtree, Within;
    forall p | p in fs ensures !Within(part + at, p) {
      InsideRelative(fs, part, at, p);
    }
  }

  lemma InsideRelative(fs: Fs, part: Path, at: string, p: Path)
    requires p in fs && Within(part, part + at)
    ensures Within(part + at, p) ==> |part| <= |p| && p[|part|..] in Subtree(fs, part) && Within(at, p[|part|..])
  {
    if Within(part + at, p) {
      BelowChain(part, part + at, p);
      RelativePath(part, p);
      var k := p[|part|..];
      assert p[..|part + at|] == part + at && k[..|at|] == at;
    }
  }

  /** One directory entry created under the staging name: the walk's invariant carries on. */
  lemma EntryStaged(fs: Fs, part: Path, dir: Item, entries: seq<Entry>, i: nat, stack: seq<Item>, node: Node)
    requires dir.node == Dir(entries) && i < |entries| && PlainName(entries[i].name)
    requires dir.path in Subtree(fs, part) && Subtree(fs, part)[dir.path].DirNode?
    requires Apart(Subtree(fs, part), Walk(stack, Children(dir.path, entries)[i..])) && Rooted(Subtree(fs, part))
    requires Within(part, part + Child(dir.path, entries[i].name))
    ensures var at := Child(dir.path, entries[i].name);
      && Subtree(fs[part + at := node], part) == Subtree(fs, part)[at := node]
      && Rooted(Subtree(fs, part)[at := node])
      && Vacant(fs, part + at)
  {
    var at, done := Child(dir.path, entries[i].name), Subtree(fs, part);
    assert Children(dir.path, entries)[i..][0] == Item(at, entries[i].node);
    assert Free(done, at);
    assert (part + at)[|part|..] == at;
    hide Subtree, Apart, Rooted, Vacant, Free, PlainName;
    PutInSubtree(fs, part, part + at, node);
    RootedChild(done, dir.path, entries[i].name, node);
    FreeIsVacant(fs, part, at);
  }

  lemma ChildInside(source: seq<Entry>, part: Path, walk: Walk, done: map<string, Node>)
    requires Covers(done, walk, Image("", Dir(source))) && walk.current != []
    requires walk.current[0].node.Dir? || walk.current[0].node.File?
    ensures Within(part, part + walk.current[0].path)
  {
    hide Covers, Image;
    PathIsCovered(done, walk, Image("", Dir(source)));
    ImageIsWithin("", Dir(source));
    WithinByTail(part, walk.current[0].path);
  }

  lemma LeafIfVacant(fs: Fs, p: Path)
    requires Vacant(fs, p)
    ensures p !in fs && Leaf(fs, p)
  {
  }

  lemma OnlyWithinPut(fs0: Fs, fs: Fs, root: Path, p: Path, node: Node)
    requires OnlyWithin(fs0, fs, root) && Within(root, p)
    ensures OnlyWithin(fs0, fs[p := node], root)
  {
  }

  lemma StartStaged(source: seq<Entry>, fs: Fs, part: Path)
    requires WellFormed(Dir(source)) && Subtree(fs, part) == map["" := DirNode]
    ensures Staged(fs, part, Walk([Item("", Dir(source))], []), Image("", Dir(source)))
    ensures part in fs && fs[part] == DirNode
  {
    StartCovers("", source);
    RootStays(fs, part);
  }

  lemma StartCounts(root: LocalNode)
    requires root.Dir?
    ensures StackSymlink([root]) <==> HasSymlink(root)
    ensures StackBytes([root]) == TreeBytes(root) && Wrapped(0) == 0
  {
    assert [root][0] == root && [root][..0] == [];
  }

  lemma OnlyWithinRefl(fs: Fs, root: Path)
    ensures OnlyWithin(fs, fs, root)
  {
  }

  lemma RootStays(fs: Fs, part: Path)
    requires "" in Subtree(fs, part) && Subtree(fs, part)[""] == DirNode
    ensures part in fs && fs[part] == DirNode
  {
    assert part + "" == part;
  }

  lemma StackTop(done: map<string, Node>, stack: seq<Item>, image: map<string, Node>)
    requires Covers(done, Walk(stack, []), image) && stack != []
    ensures var top := stack[|stack| - 1];
      top.node.Dir? && WellFormed(top.node) && top.path in done && done[top.path] == DirNode
  {
    var top := stack[|stack| - 1];
    assert top in stack;
    DirHeadsItsImage(top.path, top.node.entries);
    assert top.path in ImageOf(top);
  }

  lemma PlainEntry(dir: Item, i: nat)
    requires dir.node.Dir? && WellFormed(dir.node) && i < |dir.node.entries|
    ensures PlainName(dir.node.entries[i].name)
  {
  }

  lemma SymlinkIsSymlink(node: LocalNode)
    requires node.Symlink?
    ensures HasSymlink(node)
  {
  }

  lemma FileBytes(node: LocalNode)
    requires !node.Dir? && !node.Symlink?
    ensures TreeBytes(node) == if node.File? then |node.content| else 0
    ensures !HasSymlink(node)
  {
  }

  /** The state of the walk between two entries of one directory. */
  ghost predicate InWalk(fs0: Fs, fs: Fs, part: Path, source: seq<Entry>, dir: Item, stack: seq<Item>, i: nat)
    requires dir.node.Dir? && i <= |dir.node.entries|
  {
    && Staged(fs, part, Walk(stack, Children(dir.path, dir.node.entries)[i..]), Image("", Dir(source)))
    && OnlyWithin(fs0, fs, part) && part in fs && fs[part] == DirNode
    && dir.path in Subtree(fs, part) && Subtree(fs, part)[dir.path].DirNode?
  }

  /** Sends one entry of the directory being listed: a directory is created and stacked, a regular
      file is created and filled, other kinds are skipped. */
  method SendEntry(server: Server, part: Path, source: seq<Entry>, ghost fs0: Fs, dir: Item, i: nat,
                   stack: seq<Item>, count: nat)
    returns (stack': seq<Item>, transferred: nat)
    requires server.reliable && dir.node.Dir? && WellFormed(dir.node) && i < |dir.node.entries|
    requires !dir.node.entries[i].node.Symlink?
    requires InWalk(fs0, server.fs, part, source, dir, stack, i)
    modifies server
    ensures InWalk(fs0, server.fs, part, source, dir, stack', i + 1)
    ensures var node := dir.node.entries[i].node;
      && stack' == (if node.Dir? then stack + [Item(Child(dir.path, dir.node.entries[i].name), node)] else stack)
      && transferred == (if node.File? && node.content != [] then Wrapped(count + |node.content|) else count)
  {
    hide Within, Below, Covers, Apart, Rooted, OnlyWithin, Image, WellFormed, Vacant, Leaf, Wrapped;
    var entries, node := dir.node.entries, dir.node.entries[i].node;
    var items, at := Children(dir.path, entries), Child(dir.path, entries[i].name);
    var walk := Walk(stack, items[i..]);
    assert items[i..][0] == Item(at, node) && items[i..][1..] == items[i + 1..];
    PlainEntry(dir, i);
    ghost var image, done, before := Image("", Dir(source)), Subtree(server.fs, part), server.fs;
    stack', transferred := stack, count;
    if node.Dir? {
      ChildInside(source, part, walk, done);
      EntryStaged(before, part, dir, entries, i, stack, DirNode);
      QueuedCovers(done, walk, image);
      QueuedApart(done, walk);
      OnlyWithinPut(fs0, before, part, part + at, DirNode);
      var made := server.Send(MakeDir(part + at));
      stack' := stack + [Item(at, node)];
    } else if node.File? {
      ChildInside(source, part, walk, done);
      EntryStaged(before, part, dir, entries, i, stack, FileNode(node.content));
      FileCovers(done, walk, image);
      RestApart(done, walk, FileNode(node.content));
      OnlyWithinPut(fs0, before, part, part + at, FileNode(node.content));
      LeafIfVacant(before, part + at);
      var open := server.Send(Truncate(part + at));
      transferred := CopyStream(server, part + at, node.content, count);
      assert server.fs == before[part + at := FileNode(node.content)];
    } else {
      SkipCovers(done, walk, image);
      RestApart(done, walk, DirNode);
    }
  }

  /** Sends the tree below an existing, empty staging directory. */
  method SendTree(server: Server, part: Path, source: seq<Entry>) returns (ok: bool, transferred: nat)
    requires server.reliable && WellFormed(Dir(source))
    requires Subtree(server.fs, part) == map["" := DirNode]
    modifies server
    ensures OnlyWithin(old(server.fs), server.fs, part)
    ensures Rooted(Subtree(server.fs, part)) && part in server.fs && server.fs[part] == DirNode
    ensures ok <==> !HasSymlink(Dir(source))
    ensures ok ==> Subtree(server.fs, part) == Image("", Dir(source))
    ensures ok ==> transferred == Wrapped(TreeBytes(Dir(source)))
  {
    hide Within, Below, Covers, Apart, Rooted, OnlyWithin, Image, WellFormed, HasSymlink, TreeBytes, EntryBytes, StackBytes,
      EntryCount, NodeCount, SomeSymlink, StackSymlink, Wrapped, InWalk, Staged;
    ghost var image, fs0 := Image("", Dir(source)), server.fs;
    var stack := [Item("", Dir(source))];
    ghost var sum: nat := 0;
    transferred := 0;
    StartStaged(source, server.fs, part);
    StartCounts(Dir(source));
    OnlyWithinRefl(fs0, part);
    assert Nodes(stack) == [Dir(source)];
    while stack != []
      invariant Staged(server.fs, part, Walk(stack, []), image) && OnlyWithin(fs0, server.fs, part)
      invariant part in server.fs && server.fs[part] == DirNode
      invariant StackSymlink(Nodes(stack)) <==> HasSymlink(Dir(source))
      invariant sum + StackBytes(Nodes(stack)) == TreeBytes(Dir(source)) && transferred == Wrapped(sum)
      decreases NodeCount(Nodes(stack))
    {
      var top := |stack| - 1;
      var dir := stack[top];
      OpenDirectory(fs0, server.fs, part, source, stack);
      ghost var whole := Nodes(stack);
      var entries := dir.node.entries;
      PopCount(whole);
      PopSymlink(whole);
      stack := stack[..top];
      assert Nodes(stack) == whole[..top];
      assert entries[0..] == entries;
      var i := 0;
      while i < |entries|
        invariant 0 <= i <= |entries| && InWalk(fs0, server.fs, part, source, dir, stack, i)
        invariant StackSymlink(Nodes(stack)) || SomeSymlink(entries[i..]) <==> HasSymlink(Dir(source))
        invariant sum + StackBytes(Nodes(stack)) + EntryBytes(entries[i..]) == TreeBytes(Dir(source))
        invariant transferred == Wrapped(sum)
        invariant NodeCount(Nodes(stack)) + EntryCount(entries[i..]) < NodeCount(whole)
      {
        var node := entries[i].node;
        FirstEntry(entries[i..]);
        assert entries[i..][1..] == entries[i + 1..];
        if node.Symlink? {
          SymlinkIsSymlink(node);
          InWalkStaged(fs0, server.fs, part, source, dir, stack, i);
          return false, transferred;
        }
        ghost var before := stack;
        stack, transferred := SendEntry(server, part, source, fs0, dir, i, stack, transferred);
        if node.Dir? {
          PushNode(Nodes(before), node);
          assert Nodes(stack) == Nodes(before) + [node];
        } else {
          FileBytes(node);
          if node.File? {
            WrappedSum(sum, |node.content|);
            sum := sum + |node.content|;
          }
        }
        i := i + 1;
      }
      assert entries[i..] == [];
      CloseDirectory(fs0, server.fs, part, source, dir, stack);
      NoEntries();
    }
    assert Nodes(stack) == [];
    NoEntries();
    AllSent(server.fs, part, image);
    ok := true;
  }

  lemma OpenDirectory(fs0: Fs, fs: Fs, part: Path, source: seq<Entry>, stack: seq<Item>)
    requires Staged(fs, part, Walk(stack, []), Image("", Dir(source))) && stack != []
    requires OnlyWithin(fs0, fs, part) && part in fs && fs[part] == DirNode
    ensures var top := stack[|stack| - 1];
      top.node.Dir? && WellFormed(top.node) && InWalk(fs0, fs, part, source, top, stack[..|stack| - 1], 0)
  {
    hide Covers, Apart, Rooted, OnlyWithin, Image, Within, Below, Subtree;
    var top := stack[|stack| - 1];
    StackTop(Subtree(fs, part), stack, Image("", Dir(source)));
    NextDirectoryCovers(Subtree(fs, part), Walk(stack, []), Image("", Dir(source)));
    NextDirectoryApart(Subtree(fs, part), Walk(stack, []));
    assert Children(top.path, top.node.entries)[0..] == Children(top.path, top.node.entries);
  }

  lemma CloseDirectory(fs0: Fs, fs: Fs, part: Path, source: seq<Entry>, dir: Item, stack: seq<Item>)
    requires dir.node.Dir? && InWalk(fs0, fs, part, source, dir, stack, |dir.node.entries|)
    ensures Staged(fs, part, Walk(stack, []), Image("", Dir(source)))
    ensures OnlyWithin(fs0, fs, part) && part in fs && fs[part] == DirNode
  {
    assert Children(dir.path, dir.node.entries)[|dir.node.entries|..] == [];
  }

  lemma AllSent(fs: Fs, part: Path, image: map<string, Node>)
    requires Staged(fs, part, Walk([], []), image)
    ensures Subtree(fs, part) == image && Rooted(Subtree(fs, part))
  {
    FinishedCovers(Subtree(fs, part), image);
  }

  lemma InWalkStaged(fs0: Fs, fs: Fs, part: Path, source: seq<Entry>, dir: Item, stack: seq<Item>, i: nat)
    requires dir.node.Dir? && i <= |dir.node.entries| && InWalk(fs0, fs, part, source, dir, stack, i)
    ensures OnlyWithin(fs0, fs, part) && Rooted(Subtree(fs, part)) && part in fs && fs[part] == DirNode
  {
  }

  // ---- The whole directory upload ----

  /** Nothing existed under the staging name before, so removing it restores what was. */
  lemma Discarded(fs0: Fs, fs: Fs, part: Path)
    requires OnlyWithin(fs0[part := DirNode], fs, part) && Vacant(fs0, part)
    ensures Without(fs, part) == fs0
  {
    forall p | !Within(part, p) ensures SameAt(fs0, fs, p) {
      assert SameAt(fs0[part := DirNode], fs, p);
    }
  }

  lemma RootedIfClosed(fs: Fs, root: Path)
    requires Closed(fs, root)
    ensures Rooted(Subtree(fs, root))
  {
    var t := Subtree(fs, root);
    forall k, d | k in t && Below(d, k) ensures d in t && t[d].DirNode? {
      WithinByTail(root, k);
      WithinByTail(root, d);
      assert d == "" || d[0] == k[0];
      assert (root + k)[..|root + d|] == root + d && (root + k)[|root + d|] == k[|d|];
    }
  }

  /** Moving a closed tree elsewhere leaves it closed. */
  lemma ClosedMoves(fs: Fs, from: Path, to: Path)
    requires Closed(fs, from) && Can(fs, Rename(from, to)) && Unrelated(from, to)
    ensures Closed(Renamed(fs, from, to), to)
  {
    hide Closed, Within, Below, Renamed, Subtree, Rooted;
    RootedIfClosed(fs, from);
    RenameMoves(fs, from, to);
    ClosedIfRooted(Renamed(fs, from, to), to);
  }

  /** Replacing the target by the staged tree changes nothing else. */
  ghost predicate Installed(fs0: Fs, fs: Fs, target: Path, image: map<string, Node>) {
    Subtree(fs, target) == image && OnlyWithin(fs0, fs, target)
  }

  ghost predicate AllApart(target: Path, part: Path, backup: Path) {
    Unrelated(target, part) && Unrelated(target, backup) && Unrelated(part, backup)
  }

  lemma AgreeOutside(fs0: Fs, fs: Fs, area: Path, root: Path)
    requires OnlyWithin(fs0, fs, area) && Unrelated(area, root)
    ensures Subtree(fs0, root) == Subtree(fs, root)
    ensures Vacant(fs0, root) <==> Vacant(fs, root)
    ensures Closed(fs0, root) ==> Closed(fs, root)
    ensures root in fs0 <==> root in fs
  {
    forall p | Within(root, p) ensures SameAt(fs0, fs, p) {
      UnrelatedInside(root, area, p);
    }
    AgreeingSubtrees(fs0, fs, root);
    VacantSubtree(fs0, root);
    VacantSubtree(fs, root);
    if Closed(fs0, root) {
      forall d, p | p in fs && Within(root, d) && Below(d, p) ensures d in fs && fs[d].DirNode? {
        BelowChain(root, d, p);
        assert SameAt(fs0, fs, p) && SameAt(fs0, fs, d);
      }
    }
  }

  lemma SubtreeRoot(fs: Fs, root: Path)
    ensures root in fs <==> "" in Subtree(fs, root)
    ensures root in fs ==> Subtree(fs, root)[""] == fs[root]
  {
    assert root + "" == root;
  }

  /** The existing item can be moved aside, and is whole at the backup name afterwards. */
  lemma CanProtect(fs0: Fs, fs: Fs, target: Path, part: Path, backup: Path)
    requires AllApart(target, part, backup) && OnlyWithin(fs0, fs, part)
    requires Vacant(fs0, backup) && Closed(fs0, target) && target in fs
    ensures Can(fs, Rename(target, backup))
    ensures var fs' := Renamed(fs, target, backup);
      && Vacant(fs', target) && Subtree(fs', part) == Subtree(fs, part)
      && backup in fs' && Closed(fs', backup)
  {
    hide Within, Below, Closed, OnlyWithin, Vacant, Subtree, Renamed;
    AgreeOutside(fs0, fs, part, target);
    AgreeOutside(fs0, fs, part, backup);
    NotInside(target, backup);
    RenameMoves(fs, target, backup);
    RenameKeepsSubtree(fs, target, backup, part);
    VacantSubtree(Renamed(fs, target, backup), target);
    ClosedMoves(fs, target, backup);
    SubtreeRoot(fs, target);
    SubtreeRoot(Renamed(fs, target, backup), backup);
  }

  lemma NotInside(p: Path, q: Path)
    requires Unrelated(p, q)
    ensures !Within(p, q) && !Within(q, p)
  {
  }

  lemma VacantIfMissing(fs: Fs, root: Path)
    requires Closed(fs, root) && root !in fs
    ensures Vacant(fs, root)
  {
    forall p | p in fs ensures !Within(root, p) {
      if Below(root, p) {
        assert Within(root, root);
      }
    }
  }

  /** The staged tree can take the target's place, whole. */
  lemma CanInstall(fs: Fs, target: Path, part: Path, backup: Path)
    requires AllApart(target, part, backup) && Vacant(fs, target) && part in fs
    ensures Can(fs, Rename(part, target))
    ensures var fs' := Renamed(fs, part, target);
      && Subtree(fs', target) == Subtree(fs, part) && Vacant(fs', part)
      && Subtree(fs', backup) == Subtree(fs, backup)
  {
    hide Within, Below, Vacant, Subtree, Renamed;
    NotInside(part, target);
    RenameMoves(fs, part, target);
    VacantSubtree(Renamed(fs, part, target), part);
    RenameKeepsSubtree(fs, part, target, backup);
  }

  lemma ClosedBySubtree(fs: Fs, fs': Fs, root: Path)
    requires Closed(fs, root) && Subtree(fs, root) == Subtree(fs', root)
    ensures Closed(fs', root)
  {
    RootedIfClosed(fs, root);
    ClosedIfRooted(fs', root);
  }

  /** Outside the three names of the transfer nothing moves. */
  ghost predicate OnlyOwn(fs0: Fs, fs: Fs, target: Path, part: Path, backup: Path) {
    forall p :: !Within(target, p) && !Within(part, p) && !Within(backup, p) ==> SameAt(fs0, fs, p)
  }

  lemma OnlyOwnRename(fs0: Fs, fs: Fs, target: Path, part: Path, backup: Path, from: Path, to: Path)
    requires OnlyOwn(fs0, fs, target, part, backup) && Can(fs, Rename(from, to))
    requires from in {target, part, backup} && to in {target, part, backup}
    ensures OnlyOwn(fs0, Renamed(fs, from, to), target, part, backup)
  {
    hide Within, Renamed;
    forall p | !Within(target, p) && !Within(part, p) && !Within(backup, p) ensures SameAt(fs0, Renamed(fs, from, to), p) {
      RenameFrame(fs, from, to, p);
      assert SameAt(fs0, fs, p);
    }
  }

  lemma InstalledAlone(fs0: Fs, fs: Fs, target: Path, part: Path, backup: Path, image: map<string, Node>)
    requires OnlyOwn(fs0, fs, target, part, backup) && Subtree(fs, target) == image
    requires Vacant(fs0, part) && Vacant(fs0, backup) && Vacant(fs, part) && Vacant(fs, backup)
    ensures Installed(fs0, fs, target, image)
  {
  }

  lemma Removed(fs0: Fs, fs: Fs, target: Path, part: Path, backup: Path)
    requires AllApart(target, part, backup) && OnlyOwn(fs0, fs, target, part, backup)
    ensures OnlyOwn(fs0, Without(fs, backup), target, part, backup)
    ensures Subtree(Without(fs, backup), target) == Subtree(fs, target)
    ensures Vacant(fs, part) ==> Vacant(Without(fs, backup), part)
    ensures Vacant(Without(fs, backup), backup)
  {
    var fs' := Without(fs, backup);
    forall p | Within(target, p) ensures SameAt(fs, fs', p) {
      UnrelatedInside(target, backup, p);
    }
    AgreeingSubtrees(fs, fs', target);
    forall p | !Within(target, p) && !Within(part, p) && !Within(backup, p) ensures SameAt(fs0, fs', p) {
      assert SameAt(fs0, fs, p);
    }
  }

  lemma FileAlone(fs: Fs, root: Path)
    requires Closed(fs, root) && root in fs && !fs[root].DirNode?
    ensures Can(fs, RemoveFile(root)) && Apply(fs, RemoveFile(root)) == Without(fs, root)
  {
    forall p | p in fs ensures !Below(root, p) {
      assert Within(root, root);
    }
  }

  lemma OnlyOwnFromPart(fs0: Fs, fs: Fs, target: Path, part: Path, backup: Path)
    requires OnlyWithin(fs0[part := DirNode], fs, part)
    ensures OnlyWithin(fs0, fs, part) && OnlyOwn(fs0, fs, target, part, backup)
  {
    forall p | !Within(part, p) ensures SameAt(fs0, fs, p) {
      assert SameAt(fs0[part := DirNode], fs, p);
    }
  }

  /** The directory upload from staging to cleanup, with every request answered: it fails exactly on
      a symbolic link, and then leaves no trace; otherwise the target becomes the local tree's
      image, nothing else changes, and the byte counter has counted every regular file. */
  method RunSftpUploadTree(server: Server, source: seq<Entry>, target: Path, id: nat) returns (ok: bool, transferred: nat)
    requires server.reliable && WellFormed(Dir(source)) && Closed(server.fs, target)
    requires Vacant(server.fs, StagingName(target, id, Part)) && Vacant(server.fs, StagingName(target, id, Backup))
    modifies server
    ensures ok <==> !HasSymlink(Dir(source))
    ensures !ok ==> server.fs == old(server.fs)
    ensures ok ==> Installed(old(server.fs), server.fs, target, Image("", Dir(source)))
    ensures ok ==> transferred == Wrapped(TreeBytes(Dir(source)))
  {
    hide Within, Below, Unrelated, Closed, OnlyWithin, Vacant, Subtree, Renamed, Image, WellFormed, HasSymlink, TreeBytes, Wrapped,
      Installed, OnlyOwn, AllApart, Without, StagingName, Rooted, Leaf, Shrunk, ListsAll, Distinct;
    var part, backup := StagingName(target, id, Part), StagingName(target, id, Backup);
    ghost var fs0 := server.fs;
    NamesAllApart(target, id);
    MadeDir(fs0, part);
    var moved := false;
    var made := server.Send(MakeDir(part));
    ok, transferred := SendTree(server, part, source);
    ClosedIfRooted(server.fs, part);
    OnlyOwnFromPart(fs0, server.fs, target, part, backup);
    ghost var fs1 := server.fs;
    if ok {
      ghost var image := Image("", Dir(source));
      AgreeOutsidePart(fs0, fs1, target, part, backup);
      var exists_, _ := server.Metadata(target);
      if exists_ {
        CanProtect(fs0, fs1, target, part, backup);
        OnlyOwnRename(fs0, fs1, target, part, backup, target, backup);
        moved := server.Send(Rename(target, backup));
        SubtreeRoot(fs1, part);
        SubtreeRoot(server.fs, part);
      } else {
        VacantIfMissing(fs1, target);
      }
      ghost var fs2 := server.fs;
      CanInstall(fs2, target, part, backup);
      OnlyOwnRename(fs0, fs2, target, part, backup, part, target);
      ok := server.Send(Rename(part, target));
      ghost var fs3 := server.fs;
      if moved {
        ClosedBySubtree(fs2, fs3, backup);
        SubtreeRoot(fs2, backup);
        SubtreeRoot(fs3, backup);
        Removed(fs0, fs3, target, part, backup);
        var found, isDir := server.Metadata(backup);
        if found {
          if isDir {
            var cleaned, _ := server.DeleteTree(backup);
          } else {
            FileAlone(fs3, backup);
            var cleaned := server.Send(RemoveFile(backup));
          }
        }
      } else {
        VacantSubtree(fs2, backup);
        VacantSubtree(fs3, backup);
      }
      InstalledAlone(fs0, server.fs, target, part, backup, image);
    } else {
      Discarded(fs0, fs1, part);
      var discarded, _ := server.DeleteTree(part);
    }
  }

  /** Starting a directory upload: the size is taken first and refuses exactly the trees the upload
      would refuse; after a completed upload the counter stands at that size. */
  method StartUploadDirectory(server: Server, source: seq<Entry>, target: Path, id: nat)
    returns (total: Option<nat>, ok: bool, transferred: nat)
    requires server.reliable && WellFormed(Dir(source)) && Closed(server.fs, target)
    requires Vacant(server.fs, StagingName(target, id, Part)) && Vacant(server.fs, StagingName(target, id, Backup))
    modifies server
    ensures ok <==> total.Some?
    ensures ok <==> !HasSymlink(Dir(source))
    ensures if ok then Installed(old(server.fs), server.fs, target, Image("", Dir(source))) else server.fs == old(server.fs)
    ensures ok && TreeBytes(Dir(source)) < U64_LIMIT ==> transferred == total.value == TreeBytes(Dir(source))
  {
    hide Closed, Vacant, Installed, Image, HasSymlink, TreeBytes;
    total := LocalTreeSize(Dir(source));
    if total.None? {
      return total, false, 0;
    }
    ok, transferred := RunSftpUploadTree(server, source, target, id);
  }

  lemma NamesAllApart(target: Path, id: nat)
    ensures AllApart(target, StagingName(target, id, Part), StagingName(target, id, Backup))
  {
    NamesApart(target, id);
  }

  lemma AgreeOutsidePart(fs0: Fs, fs: Fs, target: Path, part: Path, backup: Path)
    requires AllApart(target, part, backup) && OnlyWithin(fs0, fs, part)
    ensures Closed(fs0, target) ==> Closed(fs, target)
    ensures Vacant(fs0, backup) ==> Vacant(fs, backup)
  {
    AgreeOutside(fs0, fs, part, target);
    AgreeOutside(fs0, fs, part, backup);
  }
}
