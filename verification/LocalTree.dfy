/** The local side of a directory upload: the tree to send, what it should become remotely, and
    the bookkeeping of the directory walk. */
module LocalTree {
  import opened Basics
  import opened Paths
  import opened RemoteFs

  /** `Other` stands for sockets, pipes and devices, which the walk skips. */
  datatype LocalNode =
    | File(content: seq<byte>)
    | Dir(entries: seq<Entry>)
    | Symlink
    | Other

  datatype Entry = Entry(name: string, node: LocalNode)

  /** Entry names within one directory are plain and distinct, all the way down. */
  ghost predicate WellFormed(node: LocalNode) {
    node.Dir? ==>
      && (forall i :: 0 <= i < |node.entries| ==> PlainName(node.entries[i].name) && WellFormed(node.entries[i].node))
      && (forall i, j :: 0 <= i < j < |node.entries| ==> node.entries[i].name != node.entries[j].name)
  }

  /** A node still to be sent, with the relative path it goes to. */
  datatype Item = Item(path: Path, node: LocalNode)

  function Children(dir: Path, entries: seq<Entry>): (items: seq<Item>)
    ensures |items| == |entries|
    ensures forall i :: 0 <= i < |entries| ==> items[i] == Item(Child(dir, entries[i].name), entries[i].node)
  {
    seq(|entries|, i requires 0 <= i < |entries| => Item(Child(dir, entries[i].name), entries[i].node))
  }

  /** What a local node becomes remotely: its directories and regular files, by relative path. */
  ghost function Image(path: Path, node: LocalNode): map<string, Node>
    decreases node, 1
  {
    match node
    case File(content) => map[path := FileNode(content)]
    case Dir(entries) => map[path := DirNode] + ImageOfEntries(path, entries)
    case _ => map[]
  }

  ghost function ImageOfEntries(dir: Path, entries: seq<Entry>): map<string, Node>
    decreases entries, 0
  {
    if entries == [] then map[] else
      Image(Child(dir, entries[0].name), entries[0].node) + ImageOfEntries(dir, entries[1..])
  }

  ghost function ImageOf(item: Item): map<string, Node> {
    Image(item.path, item.node)
  }

  ghost predicate Submap(a: map<string, Node>, b: map<string, Node>) {
    forall k :: k in a ==> k in b && b[k] == a[k]
  }

  lemma {:induction false} ImageIsWithin(path: Path, node: LocalNode)
    ensures forall k :: k in Image(path, node) ==> Within(path, k)
    decreases node, 1
  {
    if node.Dir? {
      EntriesAreBelow(path, node.entries);
    }
  }

  lemma {:induction false} EntriesAreBelow(dir: Path, entries: seq<Entry>)
    ensures forall k :: k in ImageOfEntries(dir, entries) ==> Below(dir, k)
    decreases entries, 0
  {
    if entries != [] {
      var child := Child(dir, entries[0].name);
      ChildIsBelow(dir, entries[0].name);
      ImageIsWithin(child, entries[0].node);
      forall k | k in Image(child, entries[0].node) ensures Below(dir, k) {
        BelowChain(dir, child, k);
      }
      EntriesAreBelow(dir, entries[1..]);
    }
  }

  ghost predicate InItems(k: string, items: seq<Item>) {
    exists c :: c in items && k in ImageOf(c)
  }

  lemma {:induction false} EntriesAreItems(dir: Path, entries: seq<Entry>, k: string)
    requires k in ImageOfEntries(dir, entries)
    ensures InItems(k, Children(dir, entries))
    decreases |entries|
  {
    var items := Children(dir, entries);
    assert items == [items[0]] + Children(dir, entries[1..]);
    if k in ImageOf(items[0]) {
      assert items[0] in items;
    } else {
      EntriesAreItems(dir, entries[1..], k);
      var c :| c in Children(dir, entries[1..]) && k in ImageOf(c);
      assert c in items;
    }
  }

  /** Entries of one directory do not overlap. */
  lemma FirstEntryIsApart(dir: Path, entries: seq<Entry>, k: string)
    requires WellFormed(Dir(entries)) && entries != []
    requires k in Image(Child(dir, entries[0].name), entries[0].node)
    ensures k !in ImageOfEntries(dir, entries[1..])
  {
    hide Image, ImageOfEntries;
    var first, rest := Child(dir, entries[0].name), entries[1..];
    ImageIsWithin(first, entries[0].node);
    if k in ImageOfEntries(dir, rest) {
      EntriesAreItems(dir, rest, k);
      var c :| c in Children(dir, rest) && k in ImageOf(c);
      var i :| 0 <= i < |rest| && Children(dir, rest)[i] == c;
      assert rest[i] == entries[i + 1];
      ImageIsWithin(c.path, c.node);
      SiblingsAreUnrelated(dir, entries[0].name, entries[i + 1].name);
      AncestorsAreComparable(first, c.path, k);
    }
  }

  /** Each entry's image is part of the directory's, whatever its neighbours are. */
  lemma {:induction false} EntryIsEmbedded(dir: Path, entries: seq<Entry>, i: nat)
    requires WellFormed(Dir(entries)) && i < |entries|
    ensures Submap(Image(Child(dir, entries[i].name), entries[i].node), ImageOfEntries(dir, entries))
    decreases |entries|
  {
    var first, rest := Child(dir, entries[0].name), entries[1..];
    assert ImageOfEntries(dir, entries) == Image(first, entries[0].node) + ImageOfEntries(dir, rest);
    if i == 0 {
      forall k | k in Image(first, entries[0].node) ensures k !in ImageOfEntries(dir, rest) {
        FirstEntryIsApart(dir, entries, k);
      }
    } else {
      assert WellFormed(Dir(rest));
      EntryIsEmbedded(dir, rest, i - 1);
      assert rest[i - 1] == entries[i];
    }
  }

  // ---- The walk ----

  /** Directories still to be listed, and the entries of the directory being listed. */
  datatype Walk = Walk(stack: seq<Item>, current: seq<Item>)

  ghost predicate ItemsWellFormed(items: seq<Item>) {
    forall i :: 0 <= i < |items| ==> WellFormed(items[i].node)
  }

  /** `done` holds a part of `image`, and what the walk still has ahead is exactly the rest. */
  ghost predicate Covers(done: map<string, Node>, walk: Walk, image: map<string, Node>) {
    && ItemsWellFormed(walk.stack) && ItemsWellFormed(walk.current)
    && Submap(done, image)
    && (forall d :: d in walk.stack ==> d.node.Dir? && d.path in done && Submap(ImageOf(d), image))
    && (forall c :: c in walk.current ==> Submap(ImageOf(c), image))
    && (forall k :: k in image ==> k in done || InItems(k, walk.stack) || InItems(k, walk.current))
  }

  lemma StartCovers(path: Path, entries: seq<Entry>)
    requires WellFormed(Dir(entries))
    ensures Covers(map[path := DirNode], Walk([Item(path, Dir(entries))], []), Image(path, Dir(entries)))
  {
    var root := Item(path, Dir(entries));
    ImageIsWithin(path, root.node);
    EntriesAreBelow(path, entries);
    assert forall k :: k in ImageOf(root) ==> InItems(k, [root]) by {
      assert root in [root];
    }
  }

  /** A finished walk has sent everything. */
  lemma FinishedCovers(done: map<string, Node>, image: map<string, Node>)
    requires Covers(done, Walk([], []), image)
    ensures done == image
  {
    forall k | k in image ensures k in done {
      assert !InItems(k, []);
    }
  }

  function NextDirectory(walk: Walk): Walk
    requires walk.stack != []
  {
    var dir := walk.stack[|walk.stack| - 1];
    Walk(walk.stack[..|walk.stack| - 1], if dir.node.Dir? then Children(dir.path, dir.node.entries) else [])
  }

  /** What is in a directory's image is the directory itself or in one of its entries. */
  lemma DirIsItsEntries(dir: Item, k: string)
    requires dir.node.Dir? && k in ImageOf(dir)
    ensures k == dir.path || InItems(k, Children(dir.path, dir.node.entries))
  {
    if k != dir.path {
      EntriesAreItems(dir.path, dir.node.entries, k);
    }
  }

  lemma ChildIsPartOfDir(dir: Item, c: Item, image: map<string, Node>)
    requires dir.node.Dir? && WellFormed(dir.node) && Submap(ImageOf(dir), image)
    requires c in Children(dir.path, dir.node.entries)
    ensures WellFormed(c.node) && Submap(ImageOf(c), image)
  {
    var entries := dir.node.entries;
    var i :| 0 <= i < |entries| && Children(dir.path, entries)[i] == c;
    EntryIsEmbedded(dir.path, entries, i);
    assert Submap(ImageOfEntries(dir.path, entries), ImageOf(dir));
  }

  lemma NextDirectoryCovers(done: map<string, Node>, walk: Walk, image: map<string, Node>)
    requires Covers(done, walk, image) && walk.current == [] && walk.stack != []
    ensures Covers(done, NextDirectory(walk), image)
  {
    hide Image, ImageOfEntries, ImageOf, WellFormed, Submap;
    var top := |walk.stack| - 1;
    var dir := walk.stack[top];
    var items := Children(dir.path, dir.node.entries);
    assert dir in walk.stack && WellFormed(dir.node);
    forall c | c in items ensures WellFormed(c.node) && Submap(ImageOf(c), image) {
      ChildIsPartOfDir(dir, c, image);
    }
    forall i | 0 <= i < |items| ensures WellFormed(items[i].node) {
      assert items[i] in items;
    }
    forall k | k in image ensures k in done || InItems(k, walk.stack[..top]) || InItems(k, items) {
      if k !in done {
        assert !InItems(k, walk.current);
        var d :| d in walk.stack && k in ImageOf(d);
        if d == dir {
          DirIsItsEntries(dir, k);
        } else {
          assert d in walk.stack[..top];
        }
      }
    }
  }

  function Rest(walk: Walk): Walk
    requires walk.current != []
  {
    walk.(current := walk.current[1..])
  }

  /** A directory entry was created remotely and queued for listing. */
  function Queued(walk: Walk): Walk
    requires walk.current != []
  {
    Walk(walk.stack + [walk.current[0]], walk.current[1..])
  }

  lemma QueuedCovers(done: map<string, Node>, walk: Walk, image: map<string, Node>)
    requires Covers(done, walk, image) && walk.current != [] && walk.current[0].node.Dir?
    ensures Covers(done[walk.current[0].path := DirNode], Queued(walk), image)
  {
    hide Image, ImageOfEntries, WellFormed, Submap, InItems;
    var item, stack, rest := walk.current[0], walk.stack, walk.current[1..];
    var done' := done[item.path := DirNode];
    assert Submap(done', image) by {
      DirHeadsItsImage(item.path, item.node.entries);
      CoversPath(done, walk, image, item.path, DirNode);
    }
    assert item in walk.current;
    forall d | d in stack + [item]
      ensures d.node.Dir? && d.path in done' && Submap(ImageOf(d), image)
    {
      assert d in stack || d == item;
    }
    assert forall c :: c in rest ==> c in walk.current;
    forall k | k in image
      ensures k in done' || InItems(k, stack + [item]) || InItems(k, rest)
    {
      SplitItems(walk, k);
    }
    assert ItemsWellFormed(stack + [item]) && ItemsWellFormed(rest);
  }

  lemma DirHeadsItsImage(path: Path, entries: seq<Entry>)
    ensures path in Image(path, Dir(entries)) && Image(path, Dir(entries))[path] == DirNode
  {
    EntriesAreBelow(path, entries);
    assert !Below(path, path);
  }

  /** A regular file was opened; its content is on the way. */
  lemma FileCovers(done: map<string, Node>, walk: Walk, image: map<string, Node>)
    requires Covers(done, walk, image) && walk.current != [] && walk.current[0].node.File?
    ensures Covers(done[walk.current[0].path := FileNode(walk.current[0].node.content)], Rest(walk), image)
  {
    var item := walk.current[0];
    CoversPath(done, walk, image, item.path, FileNode(item.node.content));
    forall k | k in image ensures InItems(k, walk.current) ==> k in ImageOf(item) || InItems(k, walk.current[1..]) {
      SplitItems(walk, k);
    }
  }

  lemma SkipCovers(done: map<string, Node>, walk: Walk, image: map<string, Node>)
    requires Covers(done, walk, image) && walk.current != [] && walk.current[0].node.Other?
    ensures Covers(done, Rest(walk), image)
  {
    var item := walk.current[0];
    forall k | k in image ensures InItems(k, walk.current) ==> k in ImageOf(item) || InItems(k, walk.current[1..]) {
      SplitItems(walk, k);
    }
  }

  lemma PathIsCovered(done: map<string, Node>, walk: Walk, image: map<string, Node>)
    requires Covers(done, walk, image) && walk.current != []
    requires walk.current[0].node.Dir? || walk.current[0].node.File?
    ensures walk.current[0].path in image
  {
    var item := walk.current[0];
    assert item in walk.current;
    if item.node.Dir? {
      DirHeadsItsImage(item.path, item.node.entries);
    }
    assert item.path in ImageOf(item);
  }

  lemma CoversPath(done: map<string, Node>, walk: Walk, image: map<string, Node>, path: Path, node: Node)
    requires Covers(done, walk, image) && walk.current != []
    requires path in ImageOf(walk.current[0]) && ImageOf(walk.current[0])[path] == node
    ensures Submap(done[path := node], image)
  {
    assert walk.current[0] in walk.current;
  }

  lemma SplitItems(walk: Walk, k: string)
    requires walk.current != []
    ensures InItems(k, walk.current) <==> k in ImageOf(walk.current[0]) || InItems(k, walk.current[1..])
    ensures InItems(k, Queued(walk).stack) <==> InItems(k, walk.stack) || k in ImageOf(walk.current[0])
  {
    var item := walk.current[0];
    assert walk.current == [item] + walk.current[1..];
    InConcat(k, [item], walk.current[1..]);
    InConcat(k, walk.stack, [item]);
    InSingle(k, item);
  }

  lemma InConcat(k: string, a: seq<Item>, b: seq<Item>)
    ensures InItems(k, a + b) <==> InItems(k, a) || InItems(k, b)
  {
    if InItems(k, a) {
      var c :| c in a && k in ImageOf(c);
      assert c in a + b;
    }
    if InItems(k, b) {
      var c :| c in b && k in ImageOf(c);
      assert c in a + b;
    }
  }

  lemma InSingle(k: string, item: Item)
    ensures InItems(k, [item]) <==> k in ImageOf(item)
  {
    assert item in [item];
  }

  // ---- Keeping apart ----

  /** The items ahead do not overlap each other or what is already there. */
  ghost predicate Apart(done: map<string, Node>, walk: Walk) {
    && (forall i, j :: 0 <= i < j < |walk.current| ==> Unrelated(walk.current[i].path, walk.current[j].path))
    && (forall i, j :: 0 <= i < j < |walk.stack| ==> Unrelated(walk.stack[i].path, walk.stack[j].path))
    && (forall i, j :: 0 <= i < |walk.stack| && 0 <= j < |walk.current| ==> Unrelated(walk.stack[i].path, walk.current[j].path))
    && (forall i :: 0 <= i < |walk.current| ==> Free(done, walk.current[i].path))
    && (forall i :: 0 <= i < |walk.stack| ==> Bare(done, walk.stack[i].path))
  }

  ghost predicate Free(done: map<string, Node>, path: Path) {
    forall k :: k in done ==> !Within(path, k)
  }

  ghost predicate Bare(done: map<string, Node>, path: Path) {
    forall k :: k in done ==> !Below(path, k)
  }

  lemma QueuedApart(done: map<string, Node>, walk: Walk)
    requires Apart(done, walk) && walk.current != []
    ensures Apart(done[walk.current[0].path := DirNode], Queued(walk))
  {
    hide Within, Below;
    var item, walk', done' := walk.current[0], Queued(walk), done[walk.current[0].path := DirNode];
    SelfAndBelow(item.path);
    forall i | 0 <= i < |walk'.current| ensures Free(done', walk'.current[i].path) {
      assert walk'.current[i] == walk.current[i + 1];
    }
    forall i | 0 <= i < |walk.stack| ensures Bare(done', walk.stack[i].path) {
      BelowIsWithin(walk.stack[i].path, item.path);
    }
    forall k | k in done' ensures !Below(item.path, k) {
      BelowIsWithin(item.path, k);
    }
  }

  lemma SelfAndBelow(p: Path)
    ensures Within(p, p) && !Below(p, p)
  {
  }

  lemma BelowIsWithin(p: Path, k: Path)
    ensures Below(p, k) ==> Within(p, k)
  {
  }

  lemma RestApart(done: map<string, Node>, walk: Walk, node: Node)
    requires Apart(done, walk) && walk.current != []
    ensures Apart(done[walk.current[0].path := node], Rest(walk))
    ensures Apart(done, Rest(walk))
  {
    hide Within, Below;
    var item, walk', done' := walk.current[0], Rest(walk), done[walk.current[0].path := node];
    forall i | 0 <= i < |walk'.current| ensures Free(done', walk'.current[i].path) && Free(done, walk'.current[i].path) {
      assert walk'.current[i] == walk.current[i + 1];
    }
    forall i | 0 <= i < |walk.stack| ensures Bare(done', walk.stack[i].path) {
      BelowIsWithin(walk.stack[i].path, item.path);
    }
  }

  lemma NextDirectoryApart(done: map<string, Node>, walk: Walk)
    requires Apart(done, walk) && walk.current == [] && walk.stack != []
    requires walk.stack[|walk.stack| - 1].node.Dir? && WellFormed(walk.stack[|walk.stack| - 1].node)
    ensures Apart(done, NextDirectory(walk))
  {
    hide Within, Below;
    var top := |walk.stack| - 1;
    var dir := walk.stack[top];
    var items := Children(dir.path, dir.node.entries);
    forall i | 0 <= i < |items| ensures Below(dir.path, items[i].path) && Within(dir.path, items[i].path) {
      ChildIsBelow(dir.path, dir.node.entries[i].name);
      BelowIsWithin(dir.path, items[i].path);
    }
    forall i, j | 0 <= i < j < |items| ensures Unrelated(items[i].path, items[j].path) {
      SiblingsAreUnrelated(dir.path, dir.node.entries[i].name, dir.node.entries[j].name);
    }
    forall i, j | 0 <= i < top && 0 <= j < |items| ensures Unrelated(walk.stack[i].path, items[j].path) {
      UnrelatedInside(dir.path, walk.stack[i].path, items[j].path);
    }
    forall i, k | 0 <= i < |items| && k in done ensures !Within(items[i].path, k) {
      if Within(items[i].path, k) {
        BelowChain(dir.path, items[i].path, k);
      }
    }
  }
}
