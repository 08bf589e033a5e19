/** When an upload succeeds: honest answers never make one fail, a symbolic link always does, and every other
    source has a run that ends with its content at the target and nothing else changed. */
module UploadSuccess {
  import opened Basics
  import opened Paths
  import opened RemoteFs
  import opened LocalTree
  import opened StagedUploads
  import D = DirectoryUpload
  import UploadTargets
  import UploadRollback

  // ---- Honest answers ----

  ghost predicate HasLink(source: Source) {
    source.LocalDirectory? && D.HasSymlink(Dir(source.entries))
  }

  /** The transfer is not cancelled, nothing it asks for fails, and a missing target is reported missing. */
  ghost predicate Honest(ups: Uploads, s: State, e: Event, id: nat) {
    e.id == id && id in ups && id in s.phases ==>
      || e.Remove?
      || (e.Advance? && (e.outcome == Done || (e.outcome == Refused && s.phases[id].Checking? && ups[id].target !in s.fs)))
  }

  ghost predicate AllHonest(ups: Uploads, s: State, events: seq<Event>, id: nat)
    decreases |events|
  {
    events == [] ||
    (Honest(ups, s, events[0], id) && Enabled(ups, s, events[0]) && AllHonest(ups, Step(ups, s, events[0]), events[1..], id))
  }

  ghost predicate LinkFree(items: seq<Item>) {
    forall i :: 0 <= i < |items| ==> !D.HasSymlink(items[i].node)
  }

  ghost predicate FreeWalk(walk: Walk) {
    LinkFree(walk.stack) && LinkFree(walk.current)
  }

  /** Phases of a transfer that has met no failure. */
  ghost predicate OnCourse(phase: Phase) {
    match phase
    case Walking(walk) => FreeWalk(walk)
    case Copying(_, _, next) => FreeWalk(next)
    case Closing(next) => FreeWalk(next)
    case Discarding(_) => false
    case Restoring => false
    case Finished(ok) => ok
    case _ => true
  }

  lemma FreeStep(walk: Walk)
    requires FreeWalk(walk)
    ensures walk.current != [] ==>
      FreeWalk(Rest(walk)) && FreeWalk(Queued(walk)) && !walk.current[0].node.Symlink?
    ensures walk.current == [] && walk.stack != [] ==> FreeWalk(NextDirectory(walk))
  {
    if walk.current != [] {
      assert !D.HasSymlink(walk.current[0].node);
    } else if walk.stack != [] {
      var top := walk.stack[|walk.stack| - 1];
      assert !D.HasSymlink(top.node);
    }
  }

  lemma CourseKept(source: Source, phase: Phase, e: Event)
    requires OnCourse(phase) && !HasLink(source)
    requires e.Remove? || (e.Advance? && (e.outcome == Done || (e.outcome == Refused && phase.Checking?)))
    ensures OnCourse(NextPhase(source, phase, e))
  {
    if phase.Walking? {
      FreeStep(phase.walk);
    }
    hide Rest, Queued, NextDirectory;
    if phase.Opening? && source.LocalDirectory? {
      assert [Item("", Dir(source.entries))][0].node == Dir(source.entries);
    }
    hide D.HasSymlink;
  }

  /** A transfer without symbolic links, to which every request is answered honestly, never starts to roll back
      and never reports a failure, whatever happens to other transfers. */
  lemma {:induction false} HonestStaysOnCourse(ups: Uploads, s: State, events: seq<Event>, s': State, id: nat)
    requires Runs(ups, s, events, s') && AllHonest(ups, s, events, id) && id in ups && id in s.phases
    requires !HasLink(ups[id].source) && OnCourse(s.phases[id])
    ensures id in s'.phases && OnCourse(s'.phases[id])
    decreases |events|
  {
    if events != [] {
      if events[0].id == id {
        CourseKept(ups[id].source, s.phases[id], events[0]);
      }
      hide OnCourse, HasLink, Enabled, Effect, NextPhase;
      HonestStaysOnCourse(ups, Step(ups, s, events[0]), events[1..], s', id);
    }
  }

  lemma HonestNeverFails(ups: Uploads, fs0: Fs, events: seq<Event>, s: State, id: nat)
    requires Runs(ups, Initial(ups, fs0), events, s) && AllHonest(ups, Initial(ups, fs0), events, id)
    requires id in ups && !HasLink(ups[id].source)
    ensures id in s.phases && !s.phases[id].Discarding? && !s.phases[id].Restoring? && s.phases[id] != Finished(false)
  {
    hide Runs, AllHonest, HasLink;
    assert Initial(ups, fs0).phases[id] == Opening;
    HonestStaysOnCourse(ups, Initial(ups, fs0), events, s, id);
  }

  // ---- Symbolic links ----

  ghost predicate SomeLink(items: seq<Item>) {
    exists i :: 0 <= i < |items| && D.HasSymlink(items[i].node)
  }

  ghost predicate LinkAhead(walk: Walk) {
    (forall i :: 0 <= i < |walk.stack| ==> walk.stack[i].node.Dir?) && (SomeLink(walk.stack) || SomeLink(walk.current))
  }

  /** Phases of a transfer that still has a link ahead of it, or has stopped at it. */
  ghost predicate BeforeLink(phase: Phase) {
    match phase
    case Opening => true
    case Walking(walk) => LinkAhead(walk)
    case Copying(_, _, next) => LinkAhead(next)
    case Closing(next) => LinkAhead(next)
    case Discarding(moved) => !moved
    case Finished(ok) => !ok
    case _ => false
  }

  lemma LinkStays(walk: Walk)
    requires LinkAhead(walk)
    ensures walk.current != [] && walk.current[0].node.Dir? ==> LinkAhead(Queued(walk))
    ensures walk.current != [] && !walk.current[0].node.Dir? && !walk.current[0].node.Symlink? ==> LinkAhead(Rest(walk))
    ensures walk.current == [] && walk.stack != [] ==> LinkAhead(NextDirectory(walk))
    ensures walk.current != [] || walk.stack != []
  {
    if SomeLink(walk.stack) {
      var i :| 0 <= i < |walk.stack| && D.HasSymlink(walk.stack[i].node);
      if walk.current != [] {
        assert Queued(walk).stack[i] == walk.stack[i];
      } else if i == |walk.stack| - 1 {
        var dir := walk.stack[i];
        assert dir.node.Dir?;
        var j :| 0 <= j < |dir.node.entries| && D.HasSymlink(dir.node.entries[j].node);
        assert D.HasSymlink(NextDirectory(walk).current[j].node);
      } else {
        assert NextDirectory(walk).stack[i] == walk.stack[i];
      }
    } else {
      var i :| 0 <= i < |walk.current| && D.HasSymlink(walk.current[i].node);
      if i == 0 {
        assert Queued(walk).stack[|walk.stack|] == walk.current[0];
      } else {
        assert Rest(walk).current[i - 1] == walk.current[i] && Queued(walk).current[i - 1] == walk.current[i];
      }
    }
  }

  lemma LinkStep(source: Source, phase: Phase, e: Event)
    requires BeforeLink(phase) && HasLink(source)
    ensures BeforeLink(NextPhase(source, phase, e))
  {
    if phase.Walking? {
      LinkStays(phase.walk);
    }
    hide Rest, Queued, NextDirectory;
    if phase.Opening? {
      assert D.HasSymlink([Item("", Dir(source.entries))][0].node);
    }
    hide D.HasSymlink;
  }

  lemma {:induction false} LinkRuns(ups: Uploads, s: State, events: seq<Event>, s': State, id: nat)
    requires Runs(ups, s, events, s') && id in ups && id in s.phases && HasLink(ups[id].source) && BeforeLink(s.phases[id])
    ensures id in s'.phases && BeforeLink(s'.phases[id])
    decreases |events|
  {
    if events != [] {
      if events[0].id == id {
        LinkStep(ups[id].source, s.phases[id], events[0]);
      }
      hide BeforeLink, HasLink, Enabled, Effect, NextPhase;
      LinkRuns(ups, Step(ups, s, events[0]), events[1..], s', id);
    }
  }

  /** A directory with a symbolic link anywhere in it is never installed: the target is not even looked at. */
  lemma LinksNeverSucceed(ups: Uploads, fs0: Fs, events: seq<Event>, s: State, id: nat)
    requires Runs(ups, Initial(ups, fs0), events, s) && id in ups && HasLink(ups[id].source)
    ensures id in s.phases && (Staging(s.phases[id]) || s.phases[id] == Discarding(false) || s.phases[id] == Finished(false))
  {
    hide Runs, HasLink;
    assert Initial(ups, fs0).phases[id] == Opening;
    LinkRuns(ups, Initial(ups, fs0), events, s, id);
    hide LinkAhead;
  }

  // ---- A run that succeeds ----

  ghost predicate HonestRun(ups: Uploads, fs0: Fs, events: seq<Event>, s: State, id: nat) {
    Runs(ups, Initial(ups, fs0), events, s) && AllHonest(ups, Initial(ups, fs0), events, id) && id in ups && id in s.phases
  }

  lemma {:induction false} HonestThen(ups: Uploads, s: State, events: seq<Event>, s': State, e: Event, id: nat)
    requires Runs(ups, s, events, s') && AllHonest(ups, s, events, id) && Enabled(ups, s', e) && Honest(ups, s', e, id)
    ensures AllHonest(ups, s, events + [e], id)
    decreases |events|
  {
    hide Enabled, Step, Honest;
    if events == [] {
      assert [] + [e] == [e] && [e][1..] == [];
    } else {
      assert (events + [e])[1..] == events[1..] + [e];
      HonestThen(ups, Step(ups, s, events[0]), events[1..], s', e, id);
    }
  }

  lemma Go(ups: Uploads, fs0: Fs, events: seq<Event>, s: State, id: nat, e: Event) returns (events': seq<Event>, s': State)
    requires HonestRun(ups, fs0, events, s, id) && Enabled(ups, s, e) && Honest(ups, s, e, id)
    ensures s' == Step(ups, s, e) && HonestRun(ups, fs0, events', s', id)
  {
    assert id in Step(ups, s, e).phases;
    hide Runs, Initial, Step, Enabled, Honest, AllHonest;
    HonestThen(ups, Initial(ups, fs0), events, s, e, id);
    events', s' := UploadTargets.After(ups, fs0, events, s, e);
  }

  /** The rest of an open file is written chunk by chunk, and the file closed. */
  lemma {:induction false} CopyRuns(ups: Uploads, fs0: Fs, events: seq<Event>, s: State, id: nat)
    returns (events': seq<Event>, s': State)
    requires HonestRun(ups, fs0, events, s, id) && s.phases[id].Copying?
    requires var p := PartOf(ups, id) + s.phases[id].at; p in s.fs && s.fs[p].FileNode?
    ensures HonestRun(ups, fs0, events', s', id)
    ensures var phase := s.phases[id]; var p := PartOf(ups, id) + phase.at;
      && s'.phases == s.phases[id := Walking(phase.next)]
      && s'.fs == s.fs[p := FileNode(s.fs[p].content + phase.rest)]
    decreases |s.phases[id].rest|
  {
    hide StagingName;
    var phase := s.phases[id];
    var p := PartOf(ups, id) + phase.at;
    hide HonestRun;
    var e := Advance(id, Done, CHUNK);
    events', s' := Go(ups, fs0, events, s, id, e);
    if phase.rest == [] {
      assert s'.phases[id] == Closing(phase.next);
      events', s' := Go(ups, fs0, events', s', id, e);
      assert s.fs[p].content + [] == s.fs[p].content && s.fs[p := s.fs[p]] == s.fs;
    } else {
      var n := ReadSize(CHUNK, phase.rest);
      assert s'.fs == s.fs[p := FileNode(s.fs[p].content + phase.rest[..n])];
      assert s.fs[p].content + phase.rest == (s.fs[p].content + phase.rest[..n]) + phase.rest[n..];
      events', s' := CopyRuns(ups, fs0, events', s', id);
    }
  }

  ghost function Weight(items: seq<Item>): nat {
    if items == [] then 0 else D.NodeSize(items[0].node) + Weight(items[1..])
  }

  lemma {:induction false} WeightAppend(items: seq<Item>, item: Item)
    ensures Weight(items + [item]) == Weight(items) + D.NodeSize(item.node)
    decreases |items|
  {
    if items == [] {
      assert [] + [item] == [item] && [item][1..] == [];
    } else {
      assert (items + [item])[1..] == items[1..] + [item];
      WeightAppend(items[1..], item);
    }
    hide D.NodeSize;
  }

  lemma {:induction false} WeightOfChildren(dir: Path, entries: seq<Entry>)
    ensures Weight(Children(dir, entries)) == D.EntryCount(entries)
    decreases |entries|
  {
    if entries != [] {
      assert Children(dir, entries)[1..] == Children(dir, entries[1..]);
      WeightOfChildren(dir, entries[1..]);
    }
    hide D.NodeSize;
  }

  lemma WalkShrinks(walk: Walk)
    ensures walk.current != [] && walk.current[0].node.Dir? ==>
      Weight(Queued(walk).stack) + Weight(Queued(walk).current) == Weight(walk.stack) + Weight(walk.current)
    ensures walk.current != [] ==> Weight(Rest(walk).current) < Weight(walk.current) && Rest(walk).stack == walk.stack
    ensures walk.current == [] && walk.stack != [] && walk.stack[|walk.stack| - 1].node.Dir? ==>
      Weight(NextDirectory(walk).stack) + Weight(NextDirectory(walk).current) < Weight(walk.stack)
  {
    if walk.current != [] {
      WeightAppend(walk.stack, walk.current[0]);
      assert D.NodeSize(walk.current[0].node) >= 1;
    } else if walk.stack != [] {
      var top := walk.stack[|walk.stack| - 1];
      assert walk.stack == walk.stack[..|walk.stack| - 1] + [top];
      WeightAppend(walk.stack[..|walk.stack| - 1], top);
      if top.node.Dir? {
        WeightOfChildren(top.path, top.node.entries);
        assert D.NodeSize(top.node) == 1 + D.EntryCount(top.node.entries);
      }
    }
    hide D.NodeSize, D.EntryCount, Children;
  }

  /** What is under the staging name, and what the walk has ahead; nothing else has changed. */
  ghost predicate Walks(ups: Uploads, fs0: Fs, s: State, id: nat, walk: Walk)
    requires id in ups
  {
    var part, done := PartOf(ups, id), Subtree(s.fs, PartOf(ups, id));
    && id in s.phases && s.phases[id] == Walking(walk) && FreeWalk(walk)
    && ups[id].source.LocalDirectory? && Covers(done, walk, Image("", Dir(ups[id].source.entries))) && Apart(done, walk)
    && D.OnlyWithin(fs0, s.fs, part)
  }

  /** The next entry can be created. */
  lemma NextIsVacant(ups: Uploads, fs0: Fs, s: State, id: nat, walk: Walk, node: Node)
    requires id in ups && Walks(ups, fs0, s, id, walk) && walk.current != []
    requires walk.current[0].node.Dir? || walk.current[0].node.File?
    ensures var part, at := PartOf(ups, id), walk.current[0].path;
      && Vacant(s.fs, part + at) && D.OnlyWithin(fs0, s.fs[part + at := node], part)
      && Subtree(s.fs[part + at := node], part) == Subtree(s.fs, part)[at := node]
  {
    var part, at, done := PartOf(ups, id), walk.current[0].path, Subtree(s.fs, PartOf(ups, id));
    D.ChildInside(ups[id].source.entries, part, walk, done);
    assert Free(done, at);
    assert (part + at)[|part|..] == at;
    hide Covers, Apart, StagingName, Within, Vacant, Subtree, Free, D.OnlyWithin, Image;
    D.FreeIsVacant(s.fs, part, at);
    PutInSubtree(s.fs, part, part + at, node);
    D.OnlyWithinPut(fs0, s.fs, part, part + at, node);
  }

  lemma DirMade(ups: Uploads, fs0: Fs, events: seq<Event>, s: State, id: nat, walk: Walk)
    returns (events': seq<Event>, s': State)
    requires HonestRun(ups, fs0, events, s, id) && id in ups && Walks(ups, fs0, s, id, walk)
    requires walk.current != [] && walk.current[0].node.Dir?
    ensures HonestRun(ups, fs0, events', s', id) && Walks(ups, fs0, s', id, Queued(walk))
  {
    hide HonestRun, StagingName, Covers, Apart, Vacant, Subtree, D.OnlyWithin, Image;
    var done := Subtree(s.fs, PartOf(ups, id));
    NextIsVacant(ups, fs0, s, id, walk, DirNode);
    events', s' := Go(ups, fs0, events, s, id, Advance(id, Done, 0));
    FreeStep(walk);
    QueuedCovers(done, walk, Image("", Dir(ups[id].source.entries)));
    QueuedApart(done, walk);
    hide FreeWalk;
  }

  lemma FileMade(ups: Uploads, fs0: Fs, events: seq<Event>, s: State, id: nat, walk: Walk)
    returns (events': seq<Event>, s': State)
    requires HonestRun(ups, fs0, events, s, id) && id in ups && Walks(ups, fs0, s, id, walk)
    requires walk.current != [] && walk.current[0].node.File?
    ensures HonestRun(ups, fs0, events', s', id) && Walks(ups, fs0, s', id, Rest(walk))
  {
    hide HonestRun, StagingName, Covers, Apart, Subtree, D.OnlyWithin, Image;
    var part, at, content := PartOf(ups, id), walk.current[0].path, walk.current[0].node.content;
    var done := Subtree(s.fs, part);
    NextIsVacant(ups, fs0, s, id, walk, FileNode(content));
    D.LeafIfVacant(s.fs, part + at);
    hide Vacant, Leaf;
    events', s' := Go(ups, fs0, events, s, id, Advance(id, Done, 0));
    assert s'.phases[id] == Copying(at, content, Rest(walk)) && s'.fs == s.fs[part + at := FileNode([])];
    events', s' := CopyRuns(ups, fs0, events', s', id);
    assert [] + content == content && s'.fs == s.fs[part + at := FileNode(content)];
    FreeStep(walk);
    FileCovers(done, walk, Image("", Dir(ups[id].source.entries)));
    RestApart(done, walk, FileNode(content));
    hide FreeWalk;
  }

  lemma Skipped(ups: Uploads, fs0: Fs, events: seq<Event>, s: State, id: nat, walk: Walk)
    returns (events': seq<Event>, s': State, walk': Walk)
    requires HonestRun(ups, fs0, events, s, id) && id in ups && Walks(ups, fs0, s, id, walk)
    requires if walk.current == [] then walk.stack != [] else walk.current[0].node.Other?
    ensures HonestRun(ups, fs0, events', s', id) && Walks(ups, fs0, s', id, walk')
    ensures walk' == if walk.current == [] then NextDirectory(walk) else Rest(walk)
    ensures walk.current == [] ==> walk.stack[|walk.stack| - 1].node.Dir?
  {
    hide HonestRun, StagingName, Covers, Apart, Subtree, D.OnlyWithin, Image;
    var done, image := Subtree(s.fs, PartOf(ups, id)), Image("", Dir(ups[id].source.entries));
    FreeStep(walk);
    if walk.current == [] {
      D.StackTop(done, walk.stack, image);
      NextDirectoryCovers(done, walk, image);
      NextDirectoryApart(done, walk);
      walk' := NextDirectory(walk);
    } else {
      SkipCovers(done, walk, image);
      RestApart(done, walk, DirNode);
      walk' := Rest(walk);
    }
    events', s' := Go(ups, fs0, events, s, id, Advance(id, Done, 0));
    hide FreeWalk;
  }

  /** The walk goes through the whole tree. */
  lemma {:induction false} WalkRuns(ups: Uploads, fs0: Fs, events: seq<Event>, s: State, id: nat, walk: Walk)
    returns (events': seq<Event>, s': State)
    requires HonestRun(ups, fs0, events, s, id) && id in ups && Walks(ups, fs0, s, id, walk)
    ensures HonestRun(ups, fs0, events', s', id) && s'.phases[id] == Checking
    ensures Subtree(s'.fs, PartOf(ups, id)) == Complete(ups[id].source) && D.OnlyWithin(fs0, s'.fs, PartOf(ups, id))
    decreases Weight(walk.stack) + Weight(walk.current), |walk.current|
  {
    hide StagingName, Covers, Apart, Subtree, D.OnlyWithin, Image, HonestRun;
    WalkShrinks(walk);
    if walk.current == [] && walk.stack == [] {
      FinishedCovers(Subtree(s.fs, PartOf(ups, id)), Image("", Dir(ups[id].source.entries)));
      events', s' := Go(ups, fs0, events, s, id, Advance(id, Done, 0));
      HonestPhase(ups, fs0, events', s', id);
    } else {
      CurrentIsFree(walk);
      hide Walks, FreeWalk, NextDirectory, Rest, Queued, Weight;
      var walk';
      if walk.current != [] && walk.current[0].node.Dir? {
        events', s' := DirMade(ups, fs0, events, s, id, walk);
        walk' := Queued(walk);
        QueuedLength(walk);
      } else if walk.current != [] && walk.current[0].node.File? {
        events', s' := FileMade(ups, fs0, events, s, id, walk);
        walk' := Rest(walk);
      } else {
        events', s', walk' := Skipped(ups, fs0, events, s, id, walk);
      }
      events', s' := WalkRuns(ups, fs0, events', s', id, walk');
    }
  }

  lemma HonestPhase(ups: Uploads, fs0: Fs, events: seq<Event>, s: State, id: nat)
    requires HonestRun(ups, fs0, events, s, id)
    ensures id in s.phases
  {
  }

  lemma CurrentIsFree(walk: Walk)
    requires FreeWalk(walk)
    ensures walk.current != [] ==> !walk.current[0].node.Symlink?
  {
    FreeStep(walk);
  }

  lemma QueuedLength(walk: Walk)
    requires walk.current != []
    ensures |Queued(walk).current| < |walk.current|
  {
  }

  lemma FileStages(ups: Uploads, fs0: Fs, id: nat) returns (events: seq<Event>, s: State)
    requires id in ups && ups[id].source.LocalFile? && Vacant(fs0, PartOf(ups, id))
    ensures HonestRun(ups, fs0, events, s, id) && s.phases[id] == Checking
    ensures Subtree(s.fs, PartOf(ups, id)) == Complete(ups[id].source) && D.OnlyWithin(fs0, s.fs, PartOf(ups, id))
  {
    var part, content := PartOf(ups, id), ups[id].source.content;
    s := Initial(ups, fs0);
    D.LeafIfVacant(fs0, part);
    assert part + "" == part;
    hide StagingName;
    events, s := Go(ups, fs0, [], s, id, Advance(id, Done, 0));
    assert s.phases[id] == Copying("", content, Walk([], [])) && s.fs == fs0[part := FileNode([])];
    events, s := CopyRuns(ups, fs0, events, s, id);
    assert [] + content == content && s.fs == fs0[part := FileNode(content)];
    hide HonestRun;
    var fs := s.fs;
    events, s := Go(ups, fs0, events, s, id, Advance(id, Done, 0));
    assert s.fs == fs;
    FileInPart(fs0, part, content);
  }

  lemma FileInPart(fs0: Fs, part: Path, content: seq<byte>)
    requires Vacant(fs0, part)
    ensures Subtree(fs0[part := FileNode(content)], part) == map["" := FileNode(content)]
    ensures D.OnlyWithin(fs0, fs0[part := FileNode(content)], part)
  {
    SelfAndBelow(part);
    PutInSubtree(fs0, part, part, FileNode(content));
    VacantSubtree(fs0, part);
    assert part[|part|..] == "";
    hide Subtree;
  }

  lemma DirectoryStages(ups: Uploads, fs0: Fs, id: nat) returns (events: seq<Event>, s: State)
    requires id in ups && ups[id].source.LocalDirectory? && Vacant(fs0, PartOf(ups, id))
    requires WellFormed(Dir(ups[id].source.entries)) && !HasLink(ups[id].source)
    ensures HonestRun(ups, fs0, events, s, id) && s.phases[id] == Checking
    ensures Subtree(s.fs, PartOf(ups, id)) == Complete(ups[id].source) && D.OnlyWithin(fs0, s.fs, PartOf(ups, id))
  {
    var part, entries := PartOf(ups, id), ups[id].source.entries;
    var walk := Walk([Item("", Dir(entries))], []);
    s := Initial(ups, fs0);
    hide StagingName, WellFormed;
    events, s := Go(ups, fs0, [], s, id, Advance(id, Done, 0));
    assert id in s.phases && s.phases[id] == Walking(walk) && s.fs == fs0[part := DirNode];
    hide HonestRun, Step, Enabled, Initial, Vacant;
    StartsWalk(ups, fs0, s, id);
    hide Walks;
    events, s := WalkRuns(ups, fs0, events, s, id, walk);
  }

  lemma StartsWalk(ups: Uploads, fs0: Fs, s: State, id: nat)
    requires id in ups && ups[id].source.LocalDirectory? && Vacant(fs0, PartOf(ups, id)) && id in s.phases
    requires WellFormed(Dir(ups[id].source.entries)) && !HasLink(ups[id].source)
    requires s.phases[id] == Walking(Walk([Item("", Dir(ups[id].source.entries))], [])) && s.fs == fs0[PartOf(ups, id) := DirNode]
    ensures Walks(ups, fs0, s, id, Walk([Item("", Dir(ups[id].source.entries))], []))
  {
    var part, entries := PartOf(ups, id), ups[id].source.entries;
    var walk := Walk([Item("", Dir(entries))], []);
    hide StagingName, WellFormed;
    MadeDir(fs0, part);
    StartCovers("", entries);
    StartsApart(entries);
    assert FreeWalk(walk) by {
      hide D.HasSymlink;
      assert walk.stack[0].node == Dir(entries);
    }
    SelfAndBelow(part);
    hide Covers, Apart, Subtree, Image, Within, Below;
  }

  lemma StartsApart(entries: seq<Entry>)
    ensures Apart(map["" := DirNode], Walk([Item("", Dir(entries))], []))
  {
    SelfAndBelow("");
  }

  /** The three names of a transfer, when its content is ready to take the target's place. */
  ghost predicate Clear(ups: Uploads, fs0: Fs, s: State, id: nat, moved: bool, whole: map<string, Node>)
    requires id in ups
  {
    && id in s.phases && s.phases[id] == Finalizing(moved)
    && Vacant(s.fs, ups[id].target) && Subtree(s.fs, PartOf(ups, id)) == whole && PartOf(ups, id) in s.fs
    && (!moved ==> Vacant(s.fs, BackupOf(ups, id)))
    && D.OnlyOwn(fs0, s.fs, ups[id].target, PartOf(ups, id), BackupOf(ups, id))
  }

  /** A staged transfer looks for its target and moves what is there aside. */
  lemma MakesRoom(ups: Uploads, fs0: Fs, events: seq<Event>, s: State, id: nat)
    returns (events': seq<Event>, s': State, moved: bool)
    requires HonestRun(ups, fs0, events, s, id) && s.phases[id] == Checking && id in ups
    requires D.OnlyWithin(fs0, s.fs, PartOf(ups, id)) && PartOf(ups, id) in s.fs
    requires Closed(fs0, ups[id].target) && Vacant(fs0, BackupOf(ups, id))
    ensures HonestRun(ups, fs0, events', s', id) && Clear(ups, fs0, s', id, moved, Subtree(s.fs, PartOf(ups, id)))
  {
    var target, part, backup := ups[id].target, PartOf(ups, id), BackupOf(ups, id);
    D.NamesAllApart(target, id);
    D.AgreeOutsidePart(fs0, s.fs, target, part, backup);
    OnlyOwnIfWithin(fs0, s.fs, target, part, backup);
    HonestPhase(ups, fs0, events, s, id);
    hide StagingName, HonestRun, Vacant, Closed, D.OnlyWithin, D.OnlyOwn, D.AllApart, Subtree, Renamed, Enabled, Step;
    moved := target in s.fs;
    UploadTargets.CheckingGoesOn(ups, s, id, moved);
    events', s' := Go(ups, fs0, events, s, id, Advance(id, if moved then Done else Refused, 0));
    if moved {
      D.CanProtect(fs0, s.fs, target, part, backup);
      D.OnlyOwnRename(fs0, s.fs, target, part, backup, target, backup);
      D.SubtreeRoot(s.fs, part);
      D.SubtreeRoot(Renamed(s.fs, target, backup), part);
      UploadTargets.ProtectingGoesOn(ups, s', id, Done);
      events', s' := Go(ups, fs0, events', s', id, Advance(id, Done, 0));
    } else {
      D.VacantIfMissing(s.fs, target);
    }
  }

  /** And takes its place. */
  lemma Installs(ups: Uploads, fs0: Fs, events: seq<Event>, s: State, id: nat, moved: bool, whole: map<string, Node>)
    returns (events': seq<Event>, s': State)
    requires HonestRun(ups, fs0, events, s, id) && id in ups && Clear(ups, fs0, s, id, moved, whole)
    ensures HonestRun(ups, fs0, events', s', id) && s'.phases[id] == if moved then Sweeping else Finished(true)
    ensures Subtree(s'.fs, ups[id].target) == whole && Vacant(s'.fs, PartOf(ups, id))
    ensures !moved ==> Vacant(s'.fs, BackupOf(ups, id))
    ensures D.OnlyOwn(fs0, s'.fs, ups[id].target, PartOf(ups, id), BackupOf(ups, id))
  {
    var target, part, backup := ups[id].target, PartOf(ups, id), BackupOf(ups, id);
    D.NamesAllApart(target, id);
    hide StagingName, HonestRun, Vacant, D.OnlyOwn, D.AllApart, Subtree, Renamed, Enabled, Step;
    D.CanInstall(s.fs, target, part, backup);
    D.OnlyOwnRename(fs0, s.fs, target, part, backup, part, target);
    VacantSubtree(s.fs, backup);
    VacantSubtree(Renamed(s.fs, part, target), backup);
    FinalizingGoesOn(ups, s, id);
    events', s' := Go(ups, fs0, events, s, id, Advance(id, Done, 0));
  }

  lemma FinalizingGoesOn(ups: Uploads, s: State, id: nat)
    requires id in ups && id in s.phases && s.phases[id].Finalizing?
    requires Can(s.fs, Rename(PartOf(ups, id), ups[id].target))
    ensures var e := Advance(id, Done, 0);
      && Enabled(ups, s, e)
      && Step(ups, s, e) == State(Renamed(s.fs, PartOf(ups, id), ups[id].target),
                                  s.phases[id := if s.phases[id].moved then Sweeping else Finished(true)])
  {
    hide StagingName, Renamed, Vacant;
  }

  lemma OnlyOwnIfWithin(fs0: Fs, fs: Fs, target: Path, part: Path, backup: Path)
    requires D.OnlyWithin(fs0, fs, part)
    ensures D.OnlyOwn(fs0, fs, target, part, backup)
  {
  }

  // ---- The displaced item is cleaned away ----

  ghost function Inside(fs: Fs, root: Path): set<Path> {
    set p | p in fs && Within(root, p)
  }

  ghost function Under(fs: Fs, p: Path): set<Path> {
    set q | q in fs && Below(p, q)
  }

  /** Something inside has nothing below it. */
  lemma {:induction false} Deepest(fs: Fs, root: Path, p: Path) returns (q: Path)
    requires p in fs && Within(root, p)
    ensures q in fs && Within(root, q) && Leaf(fs, q)
    decreases |Under(fs, p)|
  {
    hide Below, Within;
    q := p;
    if r :| r in fs && Below(p, r) {
      BelowIsWithin(p, r);
      BelowChain(root, p, r);
      LessUnder(fs, p, r);
      q := Deepest(fs, root, r);
    }
  }

  lemma LessUnder(fs: Fs, p: Path, r: Path)
    requires r in fs && Below(p, r)
    ensures |Under(fs, r)| < |Under(fs, p)|
  {
    hide Below, Within;
    forall x | x in Under(fs, r) ensures x in Under(fs, p) {
      BelowIsWithin(p, r);
      BelowIsWithin(r, x);
      BelowChain(p, r, x);
    }
    SelfAndBelow(r);
    assert r in Under(fs, p) && r !in Under(fs, r);
    SmallerSet(Under(fs, r), Under(fs, p));
  }

  lemma SmallerSet(a: set<Path>, b: set<Path>)
    requires a < b
    ensures |a| < |b|
  {
    assert b == a + (b - a) && b - a != {};
  }

  /** The name a transfer is cleaning. */
  function Area(ups: Uploads, id: nat, phase: Phase): Path
    requires id in ups
  {
    if phase.Sweeping? then BackupOf(ups, id) else PartOf(ups, id)
  }

  ghost predicate Removals(events: seq<Event>, id: nat) {
    forall e :: e in events ==> e.Remove? && e.id == id
  }

  /** Whatever lies at the name being cleaned can be removed item by item. */
  lemma {:induction false} Clears(ups: Uploads, s: State, id: nat) returns (own: seq<Event>, s': State)
    requires id in ups && id in s.phases && (s.phases[id].Sweeping? || s.phases[id].Discarding?)
    ensures Runs(ups, s, own, s') && Removals(own, id) && s'.phases == s.phases
    ensures var area := Area(ups, id, s.phases[id]); Vacant(s'.fs, area) && D.OnlyWithin(s.fs, s'.fs, area)
    decreases |Inside(s.fs, Area(ups, id, s.phases[id]))|
  {
    var area := Area(ups, id, s.phases[id]);
    hide StagingName, Within, Below, Leaf, Area;
    if p :| p in s.fs && Within(area, p) {
      var q := Deepest(s.fs, area, p);
      var op := if s.fs[q].DirNode? then RemoveDir(q) else RemoveFile(q);
      RemovalGoesOn(ups, s, id, q, op);
      hide Enabled, Step;
      var e, s1 := Remove(id, op), Step(ups, s, Remove(id, op));
      var rest;
      rest, s' := Clears(ups, s1, id);
      own := [e] + rest;
      assert own[1..] == rest;
      forall p | !Within(area, p) ensures SameAt(s.fs, s'.fs, p) {
        assert SameAt(s1.fs, s'.fs, p);
      }
    } else {
      own, s' := [], s;
    }
  }

  lemma RemovalGoesOn(ups: Uploads, s: State, id: nat, q: Path, op: Op)
    requires id in ups && id in s.phases && (s.phases[id].Sweeping? || s.phases[id].Discarding?)
    requires q in s.fs && Within(Area(ups, id, s.phases[id]), q) && Leaf(s.fs, q)
    requires op == if s.fs[q].DirNode? then RemoveDir(q) else RemoveFile(q)
    ensures var e, area := Remove(id, op), Area(ups, id, s.phases[id]);
      && Enabled(ups, s, e) && Step(ups, s, e) == State(s.fs - {q}, s.phases)
      && |Inside(s.fs - {q}, area)| < |Inside(s.fs, area)|
  {
    hide StagingName, Within, Below, Leaf;
    var area := Area(ups, id, s.phases[id]);
    assert q in Inside(s.fs, area) && q !in Inside(s.fs - {q}, area);
    SmallerSet(Inside(s.fs - {q}, area), Inside(s.fs, area));
    assert s.phases[id := s.phases[id]] == s.phases;
  }

  lemma {:induction false} RunsOn(ups: Uploads, s: State, a: seq<Event>, s1: State, b: seq<Event>, s2: State)
    requires Runs(ups, s, a, s1) && Runs(ups, s1, b, s2)
    ensures Runs(ups, s, a + b, s2)
    decreases |a|
  {
    hide Enabled, Step;
    if a == [] {
      assert a + b == b;
    } else {
      assert (a + b)[1..] == a[1..] + b;
      RunsOn(ups, Step(ups, s, a[0]), a[1..], s1, b, s2);
    }
  }

  lemma {:induction false} RemovalsAreHonest(ups: Uploads, s: State, a: seq<Event>, s1: State, own: seq<Event>, s2: State, id: nat)
    requires Runs(ups, s, a, s1) && AllHonest(ups, s, a, id) && Runs(ups, s1, own, s2) && Removals(own, id)
    ensures AllHonest(ups, s, a + own, id)
    decreases |a| + |own|
  {
    hide Enabled, Step;
    if a != [] {
      assert (a + own)[1..] == a[1..] + own;
      RemovalsAreHonest(ups, Step(ups, s, a[0]), a[1..], s1, own, s2, id);
    } else {
      assert a + own == own;
      if own != [] {
        assert own[0] in own;
        assert [] + own[1..] == own[1..];
        RemovalsAreHonest(ups, Step(ups, s, own[0]), [], Step(ups, s, own[0]), own[1..], s2, id);
      }
    }
  }

  lemma Sweeps(ups: Uploads, fs0: Fs, events: seq<Event>, s: State, id: nat) returns (events': seq<Event>, s': State)
    requires HonestRun(ups, fs0, events, s, id) && id in ups && s.phases[id] == Sweeping
    ensures HonestRun(ups, fs0, events', s', id) && s'.phases[id] == Finished(true)
    ensures Vacant(s'.fs, BackupOf(ups, id)) && D.OnlyWithin(s.fs, s'.fs, BackupOf(ups, id))
  {
    hide StagingName, Runs, Initial, Vacant, D.OnlyWithin, AllHonest;
    var own, s1 := Clears(ups, s, id);
    RunsOn(ups, Initial(ups, fs0), events, s, own, s1);
    RemovalsAreHonest(ups, Initial(ups, fs0), events, s, own, s1, id);
    hide HonestRun;
    events', s' := Go(ups, fs0, events + own, s1, id, Advance(id, Done, 0));
    assert s'.fs == s1.fs;
  }

  /** Every source without a symbolic link can be uploaded, whatever lies at the target: honest answers lead to
      success, with the complete content at the target, and nothing else changed. */
  lemma HonestUploadSucceeds(ups: Uploads, fs0: Fs, id: nat) returns (events: seq<Event>, s: State)
    requires id in ups && !HasLink(ups[id].source)
    requires ups[id].source.LocalDirectory? ==> WellFormed(Dir(ups[id].source.entries))
    requires Vacant(fs0, PartOf(ups, id)) && Vacant(fs0, BackupOf(ups, id)) && Closed(fs0, ups[id].target)
    ensures Runs(ups, Initial(ups, fs0), events, s) && AllHonest(ups, Initial(ups, fs0), events, id)
    ensures id in s.phases && s.phases[id] == Finished(true)
    ensures D.Installed(fs0, s.fs, ups[id].target, Complete(ups[id].source))
  {
    var target, part, backup := ups[id].target, PartOf(ups, id), BackupOf(ups, id);
    D.NamesAllApart(target, id);
    hide StagingName, Vacant, Closed, D.OnlyWithin, D.OnlyOwn, D.Installed, D.AllApart, Subtree, WellFormed, HasLink, Complete,
      Runs, AllHonest, Initial;
    if ups[id].source.LocalFile? {
      events, s := FileStages(ups, fs0, id);
    } else {
      events, s := DirectoryStages(ups, fs0, id);
    }
    CompleteHasRoot(ups[id].source);
    D.SubtreeRoot(s.fs, part);
    var moved;
    events, s, moved := MakesRoom(ups, fs0, events, s, id);
    events, s := Installs(ups, fs0, events, s, id, moved, Complete(ups[id].source));
    if moved {
      var fs := s.fs;
      events, s := Sweeps(ups, fs0, events, s, id);
      SweptStays(fs0, fs, s.fs, target, part, backup);
    }
    D.InstalledAlone(fs0, s.fs, target, part, backup, Complete(ups[id].source));
  }

  lemma CompleteHasRoot(source: Source)
    ensures "" in Complete(source)
  {
    if source.LocalDirectory? {
      DirHeadsItsImage("", source.entries);
    }
  }

  lemma SweptStays(fs0: Fs, fs: Fs, fs': Fs, target: Path, part: Path, backup: Path)
    requires D.AllApart(target, part, backup) && D.OnlyOwn(fs0, fs, target, part, backup) && D.OnlyWithin(fs, fs', backup)
    ensures D.OnlyOwn(fs0, fs', target, part, backup) && Subtree(fs', target) == Subtree(fs, target)
    ensures Vacant(fs, part) ==> Vacant(fs', part)
  {
    D.AgreeOutside(fs, fs', backup, target);
    D.AgreeOutside(fs, fs', backup, part);
    hide Within, Subtree, Vacant;
    forall p | !Within(target, p) && !Within(part, p) && !Within(backup, p) ensures SameAt(fs0, fs', p) {
      assert SameAt(fs0, fs, p) && SameAt(fs, fs', p);
    }
  }

  // ---- The way out ----

  /** How far a transfer is from its end, once it has staged or given up. */
  function Remaining(phase: Phase): nat {
    match phase
    case Checking => 5
    case Protecting => 4
    case Finalizing(_) => 3
    case Discarding(_) => 2
    case Restoring => 1
    case Sweeping => 1
    case Finished(_) => 0
    case _ => 6
  }

  /** Every action after staging brings a transfer nearer its end. None reports a failure before it has been through
      the cleanup of its staging name, nor, with an item displaced, before it has tried to put that back; and a
      symbolic link leads there. Any request may be refused, and a transfer be cancelled exactly while it stages. */
  lemma WayOut(ups: Uploads, s: State, id: nat, outcome: Outcome, count: nat)
    requires id in ups && id in s.phases
    ensures var phase := s.phases[id]; var next := NextPhase(ups[id].source, phase, Advance(id, outcome, count));
      && (!Staging(phase) && !phase.Finished? ==> Remaining(next) < Remaining(phase))
      && (Staging(phase) && outcome != Done ==> next == Discarding(false))
      && (next == Finished(false) ==> phase == Discarding(false) || phase == Restoring || phase == Finished(false))
      && (next == Restoring ==> phase == Discarding(true))
      && (next == Discarding(true) ==> phase == Finalizing(true))
      && (phase == Finalizing(true) && outcome != Done ==> next == Discarding(true))
      && (phase.Walking? && phase.walk.current != [] && phase.walk.current[0].node.Symlink? ==> next == Discarding(false))
    ensures Enabled(ups, s, Advance(id, Refused, count)) <==> !s.phases[id].Finished?
    ensures Enabled(ups, s, Abort(id)) <==> Staging(s.phases[id])
    ensures Staging(s.phases[id]) ==> Step(ups, s, Abort(id)) == State(s.fs, s.phases[id := Discarding(false)])
  {
    hide StagingName, NextDirectory, Rest, Queued;
  }

  /** A transfer that has given up, whatever it has staged, can clean its staging name and, if it has displaced an
      item, put it back; nothing else changes. */
  lemma FailureCleansUp(ups: Uploads, fs0: Fs, events: seq<Event>, s: State, id: nat) returns (events': seq<Event>, s': State)
    requires Runs(ups, Initial(ups, fs0), events, s) && id in ups && id in s.phases && s.phases[id].Discarding?
    requires s.phases[id].moved ==> Vacant(s.fs, ups[id].target) && BackupOf(ups, id) in s.fs
    ensures Runs(ups, Initial(ups, fs0), events', s') && s'.phases == s.phases[id := Finished(false)]
    ensures Vacant(s'.fs, PartOf(ups, id))
    ensures var target, backup := ups[id].target, BackupOf(ups, id);
      if s.phases[id].moved
      then Subtree(s'.fs, target) == Subtree(s.fs, backup) && Vacant(s'.fs, backup)
      else Subtree(s'.fs, target) == Subtree(s.fs, target) && Subtree(s'.fs, backup) == Subtree(s.fs, backup)
    ensures D.OnlyOwn(s.fs, s'.fs, ups[id].target, PartOf(ups, id), BackupOf(ups, id))
  {
    hide *;
    events', s' := Discards(ups, fs0, events, s, id);
    if s.phases[id].moved {
      SubtreeHasRoot(s.fs, s'.fs, BackupOf(ups, id));
      events', s' := PutsBack(ups, fs0, events', s', id, s.fs);
      assert s.phases[id := Restoring][id := Finished(false)] == s.phases[id := Finished(false)];
    }
  }

  lemma SubtreeHasRoot(fs: Fs, fs': Fs, root: Path)
    requires Subtree(fs', root) == Subtree(fs, root) && root in fs
    ensures root in fs'
  {
    D.SubtreeRoot(fs, root);
    D.SubtreeRoot(fs', root);
  }

  lemma Discards(ups: Uploads, fs0: Fs, events: seq<Event>, s: State, id: nat) returns (events': seq<Event>, s': State)
    requires Runs(ups, Initial(ups, fs0), events, s) && id in ups && id in s.phases && s.phases[id].Discarding?
    ensures Runs(ups, Initial(ups, fs0), events', s')
    ensures s'.phases == s.phases[id := if s.phases[id].moved then Restoring else Finished(false)]
    ensures Vacant(s'.fs, PartOf(ups, id)) && (Vacant(s.fs, ups[id].target) <==> Vacant(s'.fs, ups[id].target))
    ensures Subtree(s'.fs, ups[id].target) == Subtree(s.fs, ups[id].target)
    ensures Subtree(s'.fs, BackupOf(ups, id)) == Subtree(s.fs, BackupOf(ups, id))
    ensures D.OnlyOwn(s.fs, s'.fs, ups[id].target, PartOf(ups, id), BackupOf(ups, id))
  {
    var target, part, backup := ups[id].target, PartOf(ups, id), BackupOf(ups, id);
    D.NamesAllApart(target, id);
    hide StagingName, Runs, Initial, Vacant, Subtree, D.OnlyWithin, D.OnlyOwn, Enabled, Step;
    var own, s1 := Clears(ups, s, id);
    OnlyOwnIfWithin(s.fs, s1.fs, target, part, backup);
    D.AgreeOutside(s.fs, s1.fs, part, target);
    D.AgreeOutside(s.fs, s1.fs, part, backup);
    DiscardingGoesOn(ups, s1, id);
    RunsOn(ups, Initial(ups, fs0), events, s, own, s1);
    events', s' := UploadTargets.After(ups, fs0, events + own, s1, Advance(id, Done, 0));
  }

  lemma PutsBack(ups: Uploads, fs0: Fs, events: seq<Event>, s: State, id: nat, before: Fs) returns (events': seq<Event>, s': State)
    requires Runs(ups, Initial(ups, fs0), events, s) && id in ups && id in s.phases && s.phases[id] == Restoring
    requires Vacant(s.fs, ups[id].target) && BackupOf(ups, id) in s.fs && Vacant(s.fs, PartOf(ups, id))
    requires D.OnlyOwn(before, s.fs, ups[id].target, PartOf(ups, id), BackupOf(ups, id))
    ensures Runs(ups, Initial(ups, fs0), events', s') && s'.phases == s.phases[id := Finished(false)]
    ensures Vacant(s'.fs, PartOf(ups, id)) && Vacant(s'.fs, BackupOf(ups, id))
    ensures Subtree(s'.fs, ups[id].target) == Subtree(s.fs, BackupOf(ups, id))
    ensures D.OnlyOwn(before, s'.fs, ups[id].target, PartOf(ups, id), BackupOf(ups, id))
  {
    var target, part, backup := ups[id].target, PartOf(ups, id), BackupOf(ups, id);
    D.NamesAllApart(target, id);
    hide StagingName, Runs, Initial, Vacant, Subtree, D.OnlyOwn, Renamed, Enabled, Step;
    D.CanInstall(s.fs, target, backup, part);
    D.OnlyOwnRename(before, s.fs, target, part, backup, backup, target);
    VacantSubtree(s.fs, part);
    VacantSubtree(Renamed(s.fs, backup, target), part);
    RestoringGoesOn(ups, s, id);
    events', s' := UploadTargets.After(ups, fs0, events, s, Advance(id, Done, 0));
  }

  lemma DiscardingGoesOn(ups: Uploads, s: State, id: nat)
    requires id in ups && id in s.phases && s.phases[id].Discarding?
    ensures var e := Advance(id, Done, 0);
      && Enabled(ups, s, e)
      && Step(ups, s, e) == State(s.fs, s.phases[id := if s.phases[id].moved then Restoring else Finished(false)])
  {
    hide StagingName;
  }

  lemma RestoringGoesOn(ups: Uploads, s: State, id: nat)
    requires id in ups && id in s.phases && s.phases[id] == Restoring
    requires Can(s.fs, Rename(BackupOf(ups, id), ups[id].target))
    ensures var e := Advance(id, Done, 0);
      && Enabled(ups, s, e)
      && Step(ups, s, e) == State(Renamed(s.fs, BackupOf(ups, id), ups[id].target), s.phases[id := Finished(false)])
  {
    hide StagingName, Renamed, Vacant;
  }
}
