/** The import as it runs: a queue of directories still to be listed, and a local file system changed in
    place. */
module DocumentImport {
  import opened Basics
  import opened Paths
  import opened RemoteFs
  import opened LocalTree
  import opened DocumentCopy

  /** A directory still to be listed, and where its copy is. */
  datatype Job = Job(doc: Doc, at: Path)

  function Items(queue: seq<Job>): (items: seq<Item>)
    ensures |items| == |queue|
    ensures forall i :: 0 <= i < |queue| ==> items[i] == Item(queue[i].at, Relabelled(queue[i].doc))
  {
    seq(|queue|, i requires 0 <= i < |queue| => Item(queue[i].at, Relabelled(queue[i].doc)))
  }

  function Listing(d: Doc): seq<DocEntry> {
    if d.DocDir? then d.entries else []
  }

  predicate IsDirectory(d: Doc) {
    d.DocDir? || d.RefusedDir?
  }

  lemma DirectoryIsRelabelled(d: Doc)
    requires IsDirectory(d)
    ensures Relabelled(d) == Dir(RelabelledEntries(Listing(d)))
  {
  }

  /** The names of what lies directly in a directory. */
  function NamesIn(fs: Fs, parent: Path): (names: set<string>)
    ensures forall n :: n in names <==> Child(parent, n) in fs
  {
    var names := set p | p in fs && |parent| < |p| && p == Child(parent, p[|parent| + 1..]) :: p[|parent| + 1..];
    assert forall n {:trigger Child(parent, n)} :: Child(parent, n)[|parent| + 1..] == n;
    names
  }

  // ---- Unreadable documents ----

  function Missing(d: Doc): nat
    decreases d, 1
  {
    match d
    case Unreadable(_) => 1
    case DocDir(entries) => MissingIn(entries)
    case _ => 0
  }

  function MissingIn(entries: seq<DocEntry>): nat
    decreases entries, 0
  {
    if entries == [] then 0 else Missing(entries[0].doc) + MissingIn(entries[1..])
  }

  function QueueMissing(queue: seq<Job>): nat {
    if queue == [] then 0 else Missing(queue[0].doc) + QueueMissing(queue[1..])
  }

  function QueueCount(queue: seq<Job>): nat {
    if queue == [] then 0 else DocCount(queue[0].doc) + QueueCount(queue[1..])
  }

  lemma {:induction false} QueueAppend(queue: seq<Job>, job: Job)
    ensures QueueMissing(queue + [job]) == QueueMissing(queue) + Missing(job.doc)
    ensures QueueCount(queue + [job]) == QueueCount(queue) + DocCount(job.doc)
  {
    hide Missing, DocCount;
    if queue == [] {
      assert [job][1..] == [];
    } else {
      QueueAppend(queue[1..], job);
      assert (queue + [job])[1..] == queue[1..] + [job];
    }
  }

  lemma ListingCounts(d: Doc)
    requires IsDirectory(d)
    ensures Missing(d) == MissingIn(Listing(d)) && DocCount(d) == 1 + EntryCount(Listing(d))
  {
  }

  lemma EntryCounts(entries: seq<DocEntry>, i: nat)
    requires i < |entries|
    ensures MissingIn(entries[i..]) == Missing(entries[i].doc) + MissingIn(entries[i + 1..])
    ensures EntryCount(entries[i..]) == DocCount(entries[i].doc) + EntryCount(entries[i + 1..])
  {
    assert entries[i..][1..] == entries[i + 1..];
    hide Missing, DocCount;
  }

  lemma LeafCounts(d: Doc)
    ensures Missing(d) == 0 || IsDirectory(d) || d.Unreadable?
    ensures d.Unreadable? ==> Missing(d) == 1
    ensures DocCount(d) >= 1
  {
  }

  // ---- The invariant ----

  /** `done` is what the copy has made so far, and the walk is what it has ahead. */
  ghost predicate Copying(base: Fs, fs: Fs, root: Path, done: map<string, Node>, walk: Walk, d: Doc) {
    && Vacant(base, root) && fs == base + done
    && Covers(done, walk, Image(root, Relabelled(d))) && Apart(done, walk)
  }

  /** The entries of a directory that are there already. */
  ghost predicate Placed(done: map<string, Node>, items: seq<Item>, i: nat) {
    forall j :: 0 <= j < i && j < |items| ==> items[j].path in done
  }

  lemma StartCopying(base: Fs, root: Path, d: Doc)
    requires IsDirectory(d) && Vacant(base, root)
    ensures Copying(base, base[root := DirNode], root, map[root := DirNode], Walk(Items([Job(d, root)]), []), d)
  {
    hide Covers, Image, Relabelled, RelabelledEntries, WellFormed, Within, Below, Apart, Vacant;
    RelabelledIsWellFormed(d);
    DirectoryIsRelabelled(d);
    StartCovers(root, RelabelledEntries(Listing(d)));
    assert Items([Job(d, root)]) == [Item(root, Dir(RelabelledEntries(Listing(d))))];
    StartApart(root, Dir(RelabelledEntries(Listing(d))));
    assert base[root := DirNode] == base + map[root := DirNode];
  }

  lemma StartApart(root: Path, node: LocalNode)
    ensures Apart(map[root := DirNode], Walk([Item(root, node)], []))
  {
    SelfAndBelow(root);
    hide Below, Within;
  }

  /** The order of the directories ahead does not matter. */
  lemma RotateCopying(base: Fs, fs: Fs, root: Path, done: map<string, Node>, first: Item, rest: seq<Item>, d: Doc)
    requires Copying(base, fs, root, done, Walk([first] + rest, []), d)
    ensures Copying(base, fs, root, done, Walk(rest + [first], []), d)
  {
    hide Image, Relabelled, WellFormed, Vacant, Unrelated, Bare, Submap;
    RotateCovers(done, first, rest, Image(root, Relabelled(d)));
    RotateApart(done, first, rest);
    hide Covers, Apart;
  }

  lemma RotateCovers(done: map<string, Node>, first: Item, rest: seq<Item>, image: map<string, Node>)
    requires Covers(done, Walk([first] + rest, []), image)
    ensures Covers(done, Walk(rest + [first], []), image)
  {
    hide WellFormed, Submap, ImageOf;
    var a, b := [first] + rest, rest + [first];
    forall i | 0 <= i < |b| ensures WellFormed(b[i].node) {
      assert b[i] == a[if i < |rest| then i + 1 else 0];
    }
    assert forall x :: x in b ==> x in a;
    forall k | k in image ensures k in done || InItems(k, b) || InItems(k, []) {
      InConcat(k, [first], rest);
      InConcat(k, rest, [first]);
    }
    hide InItems;
  }

  lemma RotateApart(done: map<string, Node>, first: Item, rest: seq<Item>)
    requires Apart(done, Walk([first] + rest, []))
    ensures Apart(done, Walk(rest + [first], []))
  {
    var a, b := [first] + rest, rest + [first];
    hide Bare, Free, Within;
    forall i, j | 0 <= i < j < |b| ensures Unrelated(b[i].path, b[j].path) {
      assert b[i] == a[i + 1] && b[j] == a[if j < |rest| then j + 1 else 0];
    }
    forall i | 0 <= i < |b| ensures Bare(done, b[i].path) {
      assert b[i] == a[if i < |rest| then i + 1 else 0];
    }
    hide Unrelated;
  }

  /** Opening the directory at the front of the queue. */
  lemma OpenJob(base: Fs, fs: Fs, root: Path, done: map<string, Node>, queue: seq<Job>, d: Doc)
    requires queue != [] && IsDirectory(queue[0].doc) && Copying(base, fs, root, done, Walk(Items(queue), []), d)
    ensures Copying(base, fs, root, done,
                    Walk(Items(queue[1..]), Children(queue[0].at, RelabelledEntries(Listing(queue[0].doc)))), d)
  {
    var job, rest := queue[0], Items(queue[1..]);
    var first := Item(job.at, Relabelled(job.doc));
    assert Items(queue) == [first] + rest;
    DirectoryIsRelabelled(job.doc);
    RelabelledIsWellFormed(job.doc);
    hide Image, Relabelled, RelabelledEntries, WellFormed, Vacant, Covers, Apart, Items, Copying;
    RotateCopying(base, fs, root, done, first, rest, d);
    assert (rest + [first])[..|rest|] == rest;
    OpenTop(base, fs, root, done, rest, first, d);
  }

  lemma OpenTop(base: Fs, fs: Fs, root: Path, done: map<string, Node>, rest: seq<Item>, dir: Item, d: Doc)
    requires Copying(base, fs, root, done, Walk(rest + [dir], []), d) && dir.node.Dir? && WellFormed(dir.node)
    ensures Copying(base, fs, root, done, Walk(rest, Children(dir.path, dir.node.entries)), d)
  {
    var walk := Walk(rest + [dir], []);
    assert (rest + [dir])[..|rest|] == rest;
    hide Image, Relabelled, WellFormed, Vacant, Covers, Apart;
    NextDirectoryCovers(done, walk, Image(root, Relabelled(d)));
    NextDirectoryApart(done, walk);
  }

  /** The name the copy finds free is the name the entry should get. */
  lemma {:induction false} NameIsAssigned(base: Fs, fs: Fs, root: Path, done: map<string, Node>, stack: seq<Item>, parent: Path,
                       entries: seq<DocEntry>, i: nat, d: Doc)
    requires i < |entries| && Within(root, parent)
    requires Copying(base, fs, root, done, Walk(stack, Children(parent, RelabelledEntries(entries))[i..]), d)
    requires Placed(done, Children(parent, RelabelledEntries(entries)), i)
    ensures FreeName(Sanitize(entries[i].name), NamesIn(fs, parent)) == RelabelledEntries(entries)[i].name
  {
    hide *;
    var r := RelabelledEntries(entries);
    EntryAt(entries, i);
    CopyingParts(base, fs, root, done, Walk(stack, Children(parent, r)[i..]), d);
    NextIsFree(done, stack, parent, r, i);
    AbsentIfFree(base, done, root, parent, r[i].name);
    EarlierAreTaken(fs, done, parent, r, i);
    FreeNameStays(Sanitize(entries[i].name), NamesOf(r[..i]), NamesIn(fs, parent));
  }

  lemma CopyingParts(base: Fs, fs: Fs, root: Path, done: map<string, Node>, walk: Walk, d: Doc)
    requires Copying(base, fs, root, done, walk, d)
    ensures Vacant(base, root) && fs == base + done && Apart(done, walk)
  {
    hide Covers, Apart, Vacant, Image, Relabelled;
  }

  lemma {:induction false} NextIsFree(done: map<string, Node>, stack: seq<Item>, parent: Path, r: seq<Entry>, i: nat)
    requires i < |r| && Apart(done, Walk(stack, Children(parent, r)[i..]))
    ensures Free(done, Child(parent, r[i].name))
  {
    assert Children(parent, r)[i..][0] == Children(parent, r)[i];
    hide Free, Bare, Unrelated;
  }

  lemma PlacedNext(done: map<string, Node>, items: seq<Item>, i: nat, node: Node)
    requires Placed(done, items, i) && i < |items|
    ensures Placed(done[items[i].path := node], items, i + 1)
  {
  }

  lemma {:induction false} EarlierAreTaken(fs: Fs, done: map<string, Node>, parent: Path, r: seq<Entry>, i: nat)
    requires i <= |r| && Placed(done, Children(parent, r), i) && (forall k :: k in done ==> k in fs)
    ensures NamesOf(r[..i]) <= NamesIn(fs, parent)
  {
    forall n | n in NamesOf(r[..i]) ensures n in NamesIn(fs, parent) {
      var e :| e in r[..i] && e.name == n;
      var j :| 0 <= j < i && r[j] == e;
      assert Children(parent, r)[j].path in done;
    }
  }

  lemma AbsentIfFree(base: Fs, done: map<string, Node>, root: Path, parent: Path, name: string)
    requires Vacant(base, root) && Within(root, parent) && Free(done, Child(parent, name))
    ensures Child(parent, name) !in base + done
  {
    ChildIsBelow(parent, name);
    BelowIsWithin(parent, Child(parent, name));
    BelowChain(root, parent, Child(parent, name));
    SelfAndBelow(Child(parent, name));
    hide Within, Below;
  }

  /** One more entry in place. */
  lemma EntryCopied(base: Fs, fs: Fs, root: Path, done: map<string, Node>, walk: Walk, d: Doc)
    requires Copying(base, fs, root, done, walk, d) && walk.current != []
    ensures var item := walk.current[0];
      && (item.node.Dir? ==> Copying(base, fs[item.path := DirNode], root, done[item.path := DirNode], Queued(walk), d))
      && (item.node.File? ==> Copying(base, fs[item.path := FileNode(item.node.content)], root,
                                      done[item.path := FileNode(item.node.content)], Rest(walk), d))
  {
    hide Image, Relabelled, Vacant, Covers, Apart;
    var item, image := walk.current[0], Image(root, Relabelled(d));
    if item.node.Dir? {
      QueuedCovers(done, walk, image);
      QueuedApart(done, walk);
    }
    if item.node.File? {
      FileCovers(done, walk, image);
      RestApart(done, walk, FileNode(item.node.content));
    }
  }

  /** Where directories ahead are: inside the root. */
  lemma JobInside(base: Fs, fs: Fs, root: Path, done: map<string, Node>, walk: Walk, d: Doc, i: nat)
    requires Copying(base, fs, root, done, walk, d) && i < |walk.stack|
    ensures Within(root, walk.stack[i].path) && walk.stack[i].node.Dir?
  {
    assert walk.stack[i] in walk.stack;
    ImageIsWithin(root, Relabelled(d));
    hide Image, Relabelled, Vacant, Apart, Within;
  }

  lemma AllCopied(base: Fs, fs: Fs, root: Path, done: map<string, Node>, d: Doc)
    requires Copying(base, fs, root, done, Walk([], []), d)
    ensures fs == base + Image(root, Relabelled(d))
  {
    hide Image, Relabelled, Vacant, Covers, Apart;
    FinishedCovers(done, Image(root, Relabelled(d)));
  }

  lemma OutsideKept(base: Fs, fs: Fs, root: Path, done: map<string, Node>, walk: Walk, d: Doc)
    requires Copying(base, fs, root, done, walk, d)
    ensures Without(fs, root) == base
  {
    ImageIsWithin(root, Relabelled(d));
    hide Image, Relabelled, Apart, Within;
  }

  /** A copy that fails may leave a part of its document behind. */
  function Spoilt(fs: Fs, destination: Path, d: Doc): Fs
    requires d.Unreadable?
  {
    if d.partial.Some? then fs[destination := FileNode(d.partial.value)] else fs
  }

  /** What a failed copy leaves behind is inside the root. */
  lemma FailureInside(base: Fs, fs: Fs, root: Path, done: map<string, Node>, walk: Walk, d: Doc,
                      parent: Path, name: string, failed: Doc)
    requires Copying(base, fs, root, done, walk, d) && Within(root, parent) && failed.Unreadable?
    ensures Without(Spoilt(fs, Child(parent, name), failed), root) == base
  {
    OutsideKept(base, fs, root, done, walk, d);
    hide Copying;
    ChildIsBelow(parent, name);
    BelowIsWithin(parent, Child(parent, name));
    BelowChain(root, parent, Child(parent, name));
    BelowIsWithin(root, Child(parent, name));
    hide Within, Below, Child;
    assert Without(Spoilt(fs, Child(parent, name), failed), root) == Without(fs, root);
  }

  // ---- The importer ----

  class Importer {
    var files: Fs

    constructor (files: Fs)
      ensures this.files == files
    {
      this.files := files;
    }

    /** The first of "name", "name (2)", … that is not taken; there is one because names in use are
        finitely many and candidates never repeat. */
    method UniqueChild(parent: Path, requested: string) returns (name: string)
      ensures name == FreeName(requested, NamesIn(files, parent))
      ensures Child(parent, name) !in files
    {
      ghost var used, k := NamesIn(files, parent), 0;
      name := requested;
      var index := 2;
      hide FirstCandidates;
      NoCandidates(requested);
      while Child(parent, name) in files
        invariant index == k + 2 && name == Candidate(requested, k) && FirstCandidates(requested, k) <= used
        decreases |used| - k
      {
        OneMoreTaken(requested, k, used);
        name := requested + " (" + Decimal(index) + ")";
        index := index + 1;
        k := k + 1;
      }
      FirstFreeIsUnique(requested, used, k, FreeFrom(requested, used, 0));
    }

    /** Copies one entry of a directory being listed. */
    method CopyEntry(parent: Path, ghost entries: seq<DocEntry>, ghost i: nat, entry: DocEntry, queue: seq<Job>,
                     ghost base: Fs, ghost root: Path, ghost done: map<string, Node>, ghost d: Doc)
      returns (ok: bool, queue': seq<Job>, ghost done': map<string, Node>)
      requires i < |entries| && entries[i] == entry && Within(root, parent)
      requires Copying(base, files, root, done, Walk(Items(queue), Children(parent, RelabelledEntries(entries))[i..]), d)
      requires Placed(done, Children(parent, RelabelledEntries(entries)), i)
      modifies this
      ensures ok == !entry.doc.Unreadable?
      ensures !ok ==> files == Spoilt(old(files), Child(parent, RelabelledEntries(entries)[i].name), entry.doc)
      ensures ok ==>
        && Copying(base, files, root, done', Walk(Items(queue'), Children(parent, RelabelledEntries(entries))[i + 1..]), d)
        && Placed(done', Children(parent, RelabelledEntries(entries)), i + 1)
      ensures queue' == if IsDirectory(entry.doc)
                        then queue + [Job(entry.doc, Child(parent, RelabelledEntries(entries)[i].name))] else queue
    {
      hide Copying, RelabelledEntries, Sanitize, FreeName, Items, Relabelled, Placed, Within;
      ghost var items := Children(parent, RelabelledEntries(entries));
      ghost var walk := Walk(Items(queue), items[i..]);
      NameIsAssigned(base, files, root, done, Items(queue), parent, entries, i, d);
      var name := UniqueChild(parent, Sanitize(entry.name));
      var destination := Child(parent, name);
      EntryItem(parent, entries, i);
      EntryCopied(base, files, root, done, walk, d);
      done' := done;
      queue' := queue;
      match entry.doc {
        case Unreadable(partial) =>
          if partial.Some? {
            files := files[destination := FileNode(partial.value)];
          }
          ok := false;
        case DocFile(content) =>
          FileIsRelabelled(entry.doc);
          PlacedNext(done, items, i, FileNode(content));
          files := files[destination := FileNode(content)];
          done' := done[destination := FileNode(content)];
          ok := true;
        case _ =>
          DirectoryIsRelabelled(entry.doc);
          PlacedNext(done, items, i, DirNode);
          files := files[destination := DirNode];
          done' := done[destination := DirNode];
          queue' := queue + [Job(entry.doc, destination)];
          ItemsNext(queue, Job(entry.doc, destination));
          ok := true;
      }
    }

    /** Breadth first: every directory is listed once, files are copied and directories queued. */
    method CopyTree(d: Doc, root: Path, ghost base: Fs) returns (ok: bool)
      requires IsDirectory(d) && Vacant(base, root) && files == base[root := DirNode]
      modifies this
      ensures ok == (Missing(d) == 0)
      ensures ok ==> files == base + Image(root, Relabelled(d))
      ensures Without(files, root) == base
    {
      hide Copying, RelabelledEntries, Relabelled, Image, Missing, DocCount, MissingIn, EntryCount, Without, Spoilt, Within;
      var queue := [Job(d, root)];
      ghost var done := map[root := DirNode];
      StartCopying(base, root, d);
      OneJob(Job(d, root));
      while queue != []
        invariant Copying(base, files, root, done, Walk(Items(queue), []), d)
        invariant QueueMissing(queue) == Missing(d)
        invariant forall j :: 0 <= j < |queue| ==> IsDirectory(queue[j].doc)
        decreases QueueCount(queue)
      {
        var job := queue[0];
        JobInside(base, files, root, done, Walk(Items(queue), []), d, 0);
        OpenJob(base, files, root, done, queue, d);
        ListingCounts(job.doc);
        ghost var before := QueueCount(queue);
        queue := queue[1..];
        var entries := Listing(job.doc);
        ghost var items := Children(job.at, RelabelledEntries(entries));
        assert items[0..] == items && entries[0..] == entries;
        for i := 0 to |entries|
          invariant Copying(base, files, root, done, Walk(Items(queue), items[i..]), d) && Placed(done, items, i)
          invariant QueueMissing(queue) + MissingIn(entries[i..]) == Missing(d)
          invariant QueueCount(queue) + EntryCount(entries[i..]) < before
          invariant forall j :: 0 <= j < |queue| ==> IsDirectory(queue[j].doc)
        {
          EntryCounts(entries, i);
          LeafCounts(entries[i].doc);
          QueueAppend(queue, Job(entries[i].doc, Child(job.at, RelabelledEntries(entries)[i].name)));
          ghost var done', ahead, was := done, queue, files;
          ok, queue, done' := CopyEntry(job.at, entries, i, entries[i], queue, base, root, done, d);
          if !ok {
            FailureInside(base, was, root, done, Walk(Items(ahead), items[i..]), d,
                          job.at, RelabelledEntries(entries)[i].name, entries[i].doc);
            return;
          }
          done := done';
        }
        assert items[|entries|..] == [] && entries[|entries|..] == [];
        NothingMissing();
      }
      assert Items([]) == [];
      AllCopied(base, files, root, done, d);
      OutsideKept(base, files, root, done, Walk([], []), d);
      ok := true;
    }

    /** The picked tree arrives whole under its cleaned name in a transfer directory of its own, or not
        at all. */
    method ImportDirectory(d: Doc, displayName: Option<string>, transferRoot: Path) returns (name: Option<string>)
      requires IsDirectory(d) && Vacant(files, transferRoot)
      modifies this
      ensures name.Some? == (Missing(d) == 0)
      ensures name.Some? ==>
        && name.value == Sanitize(if displayName.Some? then displayName.value else "folder")
        && files == old(files)[transferRoot := DirNode] + Image(Child(transferRoot, name.value), Relabelled(d))
      ensures name.None? ==> files == old(files)
    {
      hide Image, Relabelled, Missing, Sanitize;
      files := files[transferRoot := DirNode];
      ghost var base := files;
      var requested := Sanitize(if displayName.Some? then displayName.value else "folder");
      var rootName := UniqueChild(transferRoot, requested);
      FreshDirectory(old(files), transferRoot, requested);
      var root := Child(transferRoot, rootName);
      files := files[root := DirNode];
      var ok := CopyTree(d, root, base);
      if ok {
        name := Some(rootName);
      } else {
        name := None;
        ghost var after := files;
        DeletedWhole(old(files), after, transferRoot, rootName);
        files := Without(files, transferRoot);
      }
    }
  }

  lemma NoCandidates(requested: string)
    ensures FirstCandidates(requested, 0) == {} && Candidate(requested, 0) == requested
  {
  }

  lemma OneMoreTaken(requested: string, k: nat, used: set<string>)
    requires FirstCandidates(requested, k) <= used && Candidate(requested, k) in used
    ensures FirstCandidates(requested, k + 1) <= used && k < |used|
    ensures Candidate(requested, k + 1) == requested + " (" + Decimal(k + 2) + ")"
  {
    Pigeonhole(requested, k + 1, used);
  }

  lemma EntryItem(parent: Path, entries: seq<DocEntry>, i: nat)
    requires i < |entries|
    ensures var items := Children(parent, RelabelledEntries(entries));
      && items[i..] != [] && items[i..][1..] == items[i + 1..]
      && items[i..][0] == Item(Child(parent, RelabelledEntries(entries)[i].name), Relabelled(entries[i].doc))
      && items[i] == items[i..][0]
  {
    EntryAt(entries, i);
    hide RelabelledEntries;
  }

  lemma FileIsRelabelled(d: Doc)
    requires d.DocFile?
    ensures Relabelled(d) == File(d.content)
  {
  }

  lemma ItemsNext(queue: seq<Job>, job: Job)
    ensures Items(queue + [job]) == Items(queue) + [Item(job.at, Relabelled(job.doc))]
  {
    hide Relabelled;
  }

  lemma OneJob(job: Job)
    ensures QueueMissing([job]) == Missing(job.doc)
  {
    assert [job][1..] == [];
    hide Missing;
  }

  lemma NothingMissing()
    ensures MissingIn([]) == 0 && EntryCount([]) == 0
  {
  }

  /** A transfer directory that was just made is empty. */
  lemma FreshDirectory(fs: Fs, transferRoot: Path, requested: string)
    requires Vacant(fs, transferRoot)
    ensures var base := fs[transferRoot := DirNode];
      FreeName(requested, NamesIn(base, transferRoot)) == requested && Vacant(base, Child(transferRoot, requested))
  {
    var base := fs[transferRoot := DirNode];
    forall n ensures Child(transferRoot, n) !in base {
      ChildIsBelow(transferRoot, n);
      BelowIsWithin(transferRoot, Child(transferRoot, n));
      SelfAndBelow(transferRoot);
    }
    NoCandidates(requested);
    FirstFreeIsUnique(requested, NamesIn(base, transferRoot), 0, FreeFrom(requested, NamesIn(base, transferRoot), 0));
    var root := Child(transferRoot, requested);
    ChildIsBelow(transferRoot, requested);
    SelfAndBelow(transferRoot);
    forall p | p in base ensures !Within(root, p) {
      if Within(root, p) {
        BelowChain(transferRoot, root, p);
        BelowIsWithin(transferRoot, p);
      }
    }
    hide Below, Within, FreeName, FirstCandidates, Candidate;
  }

  /** Deleting the transfer directory after a failure restores what was there before. */
  lemma DeletedWhole(fs: Fs, after: Fs, transferRoot: Path, name: string)
    requires Vacant(fs, transferRoot) && Without(after, Child(transferRoot, name)) == fs[transferRoot := DirNode]
    ensures Without(after, transferRoot) == fs
  {
    var root, base := Child(transferRoot, name), fs[transferRoot := DirNode];
    ChildIsBelow(transferRoot, name);
    SelfAndBelow(transferRoot);
    hide Below;
    forall p | !Within(transferRoot, p) ensures SameAt(after, fs, p) {
      if Within(root, p) {
        BelowChain(transferRoot, root, p);
      }
      assert p in after <==> p in Without(after, root);
      assert p in base <==> p in fs;
    }
    forall p ensures SameAt(Without(after, transferRoot), fs, p) {
    }
  }
}
