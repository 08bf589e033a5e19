/** Which targets may be uploaded to side by side: the assumption on names under which no target is ever
    partial is exactly the one that is needed. */
module UploadTargets {
  import opened Basics
  import opened Paths
  import opened RemoteFs
  import opened LocalTree
  import opened StagedUploads

  // ---- Building runs ----

  lemma {:induction false} RunsThen(ups: Uploads, s: State, events: seq<Event>, s': State, e: Event)
    requires Runs(ups, s, events, s') && Enabled(ups, s', e)
    ensures Runs(ups, s, events + [e], Step(ups, s', e))
    decreases |events|
  {
    hide Enabled, Step;
    if events == [] {
      assert Runs(ups, Step(ups, s, e), [], Step(ups, s, e));
      assert [e][1..] == [];
    } else {
      assert (events + [e])[1..] == events[1..] + [e];
      RunsThen(ups, Step(ups, s, events[0]), events[1..], s', e);
    }
  }

  lemma After(ups: Uploads, fs0: Fs, events: seq<Event>, s: State, e: Event) returns (events': seq<Event>, s': State)
    requires Runs(ups, Initial(ups, fs0), events, s) && Enabled(ups, s, e)
    ensures s' == Step(ups, s, e) && Runs(ups, Initial(ups, fs0), events', s') && events' == events + [e]
  {
    events', s' := events + [e], Step(ups, s, e);
    RunsThen(ups, Initial(ups, fs0), events, s, e);
  }

  const EMPTY_DIRECTORY := LocalDirectory([])

  lemma EmptyDirectoryIsBare()
    ensures Complete(EMPTY_DIRECTORY) == map["" := DirNode]
  {
  }

  /** An empty directory staged, up to the check for an existing item. */
  lemma Stage(ups: Uploads, fs0: Fs, id: nat) returns (events: seq<Event>, s: State)
    requires id in ups && ups[id].source == EMPTY_DIRECTORY && Vacant(fs0, PartOf(ups, id))
    ensures Runs(ups, Initial(ups, fs0), events, s)
    ensures s == State(fs0[PartOf(ups, id) := DirNode], Initial(ups, fs0).phases[id := Checking])
    ensures events == [Advance(id, Done, 0), Advance(id, Done, 0), Advance(id, Done, 0)]
  {
    hide StagingName, Vacant;
    s := Initial(ups, fs0);
    events, s := After(ups, fs0, [], s, Advance(id, Done, 0));
    assert s.phases[id] == Walking(Walk([Item("", Dir([]))], []));
    events, s := After(ups, fs0, events, s, Advance(id, Done, 0));
    assert s.phases[id] == Walking(Walk([], []));
    events, s := After(ups, fs0, events, s, Advance(id, Done, 0));
  }

  lemma CheckingGoesOn(ups: Uploads, s: State, id: nat, found: bool)
    requires id in ups && id in s.phases && s.phases[id] == Checking && (found ==> ups[id].target in s.fs)
    ensures var e := Advance(id, if found then Done else Refused, 0);
      Enabled(ups, s, e) &&
      Step(ups, s, e) == State(s.fs, s.phases[id := if found then Protecting else Finalizing(false)])
  {
    hide StagingName;
  }

  lemma ProtectingGoesOn(ups: Uploads, s: State, id: nat, outcome: Outcome)
    requires id in ups && id in s.phases && s.phases[id] == Protecting && outcome != Refused
    requires Can(s.fs, Rename(ups[id].target, BackupOf(ups, id)))
    ensures var e := Advance(id, outcome, 0);
      Enabled(ups, s, e) &&
      Step(ups, s, e) == State(Renamed(s.fs, ups[id].target, BackupOf(ups, id)),
                               s.phases[id := if outcome == Done then Finalizing(true) else Discarding(false)])
  {
    hide StagingName, Renamed, Vacant;
  }

  lemma FinalizingGoesOn(ups: Uploads, s: State, id: nat)
    requires id in ups && id in s.phases && s.phases[id] == Finalizing(false)
    requires Can(s.fs, Rename(PartOf(ups, id), ups[id].target))
    ensures var e := Advance(id, Done, 0);
      Enabled(ups, s, e) &&
      Step(ups, s, e) == State(Renamed(s.fs, PartOf(ups, id), ups[id].target), s.phases[id := Finished(true)])
  {
    hide StagingName, Renamed, Vacant;
  }

  /** A staged upload moves an existing item to the backup name. */
  lemma Protect(ups: Uploads, fs0: Fs, events: seq<Event>, s: State, id: nat, outcome: Outcome)
    returns (events': seq<Event>, s': State)
    requires Runs(ups, Initial(ups, fs0), events, s) && id in ups && id in s.phases && s.phases[id] == Checking
    requires ups[id].target in s.fs && Vacant(s.fs, BackupOf(ups, id)) && outcome != Refused
    ensures Runs(ups, Initial(ups, fs0), events', s')
    ensures Can(s.fs, Rename(ups[id].target, BackupOf(ups, id)))
    ensures s'.fs == Renamed(s.fs, ups[id].target, BackupOf(ups, id))
    ensures s'.phases == s.phases[id := if outcome == Done then Finalizing(true) else Discarding(false)]
    ensures events' == events + [Advance(id, Done, 0)] + [Advance(id, outcome, 0)]
  {
    NamesApart(ups[id].target, id);
    hide StagingName, Within, Renamed, Vacant, Enabled, Step, Runs, Initial;
    CheckingGoesOn(ups, s, id, true);
    events', s' := After(ups, fs0, events, s, Advance(id, Done, 0));
    ProtectingGoesOn(ups, s', id, outcome);
    events', s' := After(ups, fs0, events', s', Advance(id, outcome, 0));
  }

  /** A staged upload takes the place of a missing item. */
  lemma Install(ups: Uploads, fs0: Fs, events: seq<Event>, s: State, id: nat) returns (events': seq<Event>, s': State)
    requires Runs(ups, Initial(ups, fs0), events, s) && id in ups && id in s.phases && s.phases[id] == Checking
    requires PartOf(ups, id) in s.fs && Vacant(s.fs, ups[id].target)
    ensures Runs(ups, Initial(ups, fs0), events', s')
    ensures Can(s.fs, Rename(PartOf(ups, id), ups[id].target))
    ensures s'.fs == Renamed(s.fs, PartOf(ups, id), ups[id].target)
  {
    NamesApart(ups[id].target, id);
    hide StagingName, Within, Renamed, Vacant, Enabled, Step, Runs, Initial;
    CheckingGoesOn(ups, s, id, false);
    events', s' := After(ups, fs0, events, s, Advance(id, Refused, 0));
    FinalizingGoesOn(ups, s', id);
    events', s' := After(ups, fs0, events', s', Advance(id, Done, 0));
  }

  // ---- What the names must be like ----

  /** Uploads to these targets, of whatever sources. */
  ghost predicate UploadsTo(ups: Uploads, targets: map<nat, Path>) {
    && ups.Keys == targets.Keys
    && (forall id :: id in ups ==> ups[id].target == targets[id])
    && (forall id :: id in ups && ups[id].source.LocalDirectory? ==> WellFormed(Dir(ups[id].source.entries)))
  }

  ghost predicate Partial(ups: Uploads, fs0: Fs, s: State, id: nat)
    requires id in ups
  {
    !Whole(ups, fs0, ups[id].target, Subtree(s.fs, ups[id].target))
  }

  /** Whatever is uploaded to these targets, to whatever server, in whatever interleaving: no target is
      ever partial. */
  ghost predicate NeverPartial(targets: map<nat, Path>) {
    forall ups: Uploads, fs0, events, s, id :: UploadsTo(ups, targets) && Runs(ups, Initial(ups, fs0), events, s) && id in ups ==>
      !Partial(ups, fs0, s, id)
  }

  function AllUploading(targets: map<nat, Path>, source: Source): Uploads {
    map id | id in targets :: Upload(targets[id], source)
  }

  lemma AllUpload(targets: map<nat, Path>, source: Source)
    requires source.LocalDirectory? ==> WellFormed(Dir(source.entries))
    ensures var ups := AllUploading(targets, source);
      && UploadsTo(ups, targets)
      && (forall id :: id in ups <==> id in targets)
      && (forall id :: id in ups ==> ups[id] == Upload(targets[id], source))
  {
    hide WellFormed;
  }

  lemma InSubtree(fs: Fs, root: Path, p: Path)
    requires p in fs && Within(root, p)
    ensures p[|root|..] in Subtree(fs, root) && Subtree(fs, root)[p[|root|..]] == fs[p]
  {
    RelativePath(root, p);
  }

  lemma NotInSubtree(fs: Fs, root: Path, p: Path)
    requires p !in fs && Within(root, p)
    ensures p[|root|..] !in Subtree(fs, root)
  {
    RelativePath(root, p);
  }

  /** A target at another's `.part` name, or around it: opening that file already shows. */
  lemma OpenedInside(targets: map<nat, Path>, i: nat, j: nat) returns (ups: Uploads, fs0: Fs, events: seq<Event>, s: State)
    requires i in targets && j in targets && Within(targets[i], StagingName(targets[j], j, Part))
    ensures UploadsTo(ups, targets) && Runs(ups, Initial(ups, fs0), events, s) && i in ups && Partial(ups, fs0, s, i)
  {
    var part := StagingName(targets[j], j, Part);
    ups := AllUploading(targets, LocalFile([7]));
    fs0 := if part == targets[i] then map[] else map[targets[i] := DirNode];
    AllUpload(targets, LocalFile([7]));
    OuterIsNoLeaf(targets[i], part);
    hide StagingName, Partial, UploadsTo, AllUploading, Within, Below, Runs, Initial;
    events, s := Open(ups, fs0, j);
    OpenedIsPartial(ups, fs0, s, i, part);
  }

  lemma OuterIsNoLeaf(outer: Path, part: Path)
    requires Within(outer, part)
    ensures !Below(part, outer)
  {
  }

  lemma Open(ups: Uploads, fs0: Fs, j: nat) returns (events: seq<Event>, s: State)
    requires j in ups && ups[j].source == LocalFile([7]) && Leaf(fs0, PartOf(ups, j))
    requires PartOf(ups, j) in fs0 ==> fs0[PartOf(ups, j)].FileNode?
    ensures Runs(ups, Initial(ups, fs0), events, s) && s.fs == fs0[PartOf(ups, j) := FileNode([])]
  {
    hide StagingName, Leaf;
    s := Initial(ups, fs0);
    events, s := After(ups, fs0, [], s, Advance(j, Done, 0));
  }

  lemma OpenedIsPartial(ups: Uploads, fs0: Fs, s: State, i: nat, part: Path)
    requires i in ups && (forall id :: id in ups ==> ups[id].source == LocalFile([7]))
    requires Within(ups[i].target, part) && part !in fs0 && s.fs == fs0[part := FileNode([])]
    ensures Partial(ups, fs0, s, i)
  {
    InSubtree(s.fs, ups[i].target, part);
    NotInSubtree(fs0, ups[i].target, part);
    hide Subtree, Within;
    assert Complete(LocalFile([7])) == map["" := FileNode([7])];
  }

  /** There the original is not safe either: it is neither at its place nor at the backup name. */
  lemma OriginalOverwritten(targets: map<nat, Path>, i: nat, j: nat)
    returns (ups: Uploads, fs0: Fs, events: seq<Event>, s: State)
    requires i in targets && j in targets && Within(targets[i], StagingName(targets[j], j, Part))
    ensures UploadsTo(ups, targets) && Runs(ups, Initial(ups, fs0), events, s) && i in ups
    ensures var original, v := Subtree(fs0, ups[i].target), ViewOf(ups, s.fs, i);
      v.target != original && v.backup != original && v.target != Complete(ups[i].source)
  {
    var part := StagingName(targets[j], j, Part);
    ups := AllUploading(targets, LocalFile([7]));
    fs0 := map[targets[i] := if part == targets[i] then FileNode([1]) else DirNode];
    AllUpload(targets, LocalFile([7]));
    OuterIsNoLeaf(targets[i], part);
    NamesApart(targets[i], i);
    hide StagingName, UploadsTo, AllUploading, Within, Below, Runs, Initial;
    events, s := Open(ups, fs0, j);
    OverwrittenView(fs0, s.fs, targets[i], part, StagingName(targets[i], i, Backup));
    assert Complete(LocalFile([7])) == map["" := FileNode([7])];
    hide Subtree;
  }

  lemma OverwrittenView(fs0: Fs, fs: Fs, target: Path, part: Path, backup: Path)
    requires Within(target, part) && Unrelated(target, backup)
    requires fs0 == map[target := if part == target then FileNode([1]) else DirNode] && fs == fs0[part := FileNode([])]
    ensures var original, t := Subtree(fs0, target), Subtree(fs, target);
      original != t && original != map[] && Subtree(fs, backup) == map[] && t != map["" := FileNode([7])]
  {
    SelfAndBelow(target);
    InSubtree(fs0, target, target);
    InSubtree(fs, target, part);
    UnrelatedInside(target, backup, part);
    VacantSubtree(fs, backup);
    if part == target {
      assert fs0[part] != fs[part];
    } else {
      NotInSubtree(fs0, target, part);
    }
    hide Subtree;
  }

  /** A target inside another's `.part` name: what is begun there is moved along with it. */
  lemma MovedAlong(targets: map<nat, Path>, i: nat, j: nat) returns (ups: Uploads, fs0: Fs, events: seq<Event>, s: State)
    requires i in targets && j in targets && Below(StagingName(targets[j], j, Part), targets[i])
    ensures UploadsTo(ups, targets) && Runs(ups, Initial(ups, fs0), events, s) && j in ups && Partial(ups, fs0, s, j)
  {
    var target, part, inner := targets[j], StagingName(targets[j], j, Part), StagingName(targets[i], i, Part);
    ups := AllUploading(targets, EMPTY_DIRECTORY);
    fs0 := map[];
    InnerNames(targets, i, j);
    AllUpload(targets, EMPTY_DIRECTORY);
    hide StagingName, AllUploading, UploadsTo, Within, Below, Runs, Partial;
    events, s := Stage(ups, fs0, j);
    assert i != j && s.phases[i] == Opening && s.fs == map[part := DirNode];
    events, s := BeginInside(ups, fs0, events, s, i, inner);
    assert s.fs == map[part := DirNode, inner := DirNode] && s.phases[j] == Checking;
    hide Step, Enabled, Initial;
    var fs := s.fs;
    events, s := Install(ups, fs0, events, s, j);
    RenameMoves(fs, part, target);
    MovedIsPartial(ups, fs0, s, fs, j, part, inner);
  }

  lemma InnerNames(targets: map<nat, Path>, i: nat, j: nat)
    requires i in targets && j in targets && Below(StagingName(targets[j], j, Part), targets[i])
    ensures var target, part, inner := targets[j], StagingName(targets[j], j, Part), StagingName(targets[i], i, Part);
      && i != j && Below(part, inner) && !Within(inner, part) && Unrelated(target, part) && Unrelated(target, inner)
  {
    var target, part, inner := targets[j], StagingName(targets[j], j, Part), StagingName(targets[i], i, Part);
    NamesApart(target, j);
    assert inner[..|targets[i]|] == targets[i];
    assert inner[..|part|] == targets[i][..|part|];
    UnrelatedInside(part, target, inner);
  }

  lemma BeginInside(ups: Uploads, fs0: Fs, events: seq<Event>, s: State, i: nat, inner: Path)
    returns (events': seq<Event>, s': State)
    requires Runs(ups, Initial(ups, fs0), events, s) && i in ups && i in s.phases && s.phases[i] == Opening
    requires ups[i].source == EMPTY_DIRECTORY && inner == PartOf(ups, i) && Vacant(s.fs, inner)
    ensures Runs(ups, Initial(ups, fs0), events', s') && s'.fs == s.fs[inner := DirNode]
    ensures forall j :: j != i && j in s.phases ==> j in s'.phases && s'.phases[j] == s.phases[j]
  {
    hide StagingName, Vacant;
    events', s' := After(ups, fs0, events, s, Advance(i, Done, 0));
  }

  lemma MovedIsPartial(ups: Uploads, fs0: Fs, s: State, fs: Fs, j: nat, part: Path, inner: Path)
    requires j in ups && (forall id :: id in ups ==> ups[id].source == EMPTY_DIRECTORY) && fs0 == map[]
    requires Subtree(s.fs, ups[j].target) == Subtree(fs, part) && inner in fs && Below(part, inner)
    ensures Partial(ups, fs0, s, j)
  {
    InSubtree(fs, part, inner);
    EmptyDirectoryIsBare();
    assert inner[|part|..] != "";
    assert Subtree(fs0, ups[j].target) == map[];
    hide Subtree, Complete;
  }

  /** A target at or inside another's `.backup` name: a displaced item turns up there. */
  lemma DisplacedOnto(targets: map<nat, Path>, i: nat, j: nat) returns (ups: Uploads, fs0: Fs, events: seq<Event>, s: State)
    requires i in targets && j in targets && Within(StagingName(targets[j], j, Backup), targets[i])
    ensures UploadsTo(ups, targets) && Runs(ups, Initial(ups, fs0), events, s) && i in ups && Partial(ups, fs0, s, i)
  {
    var target, part, backup := targets[j], StagingName(targets[j], j, Part), StagingName(targets[j], j, Backup);
    var k := targets[i][|backup|..];
    ups := AllUploading(targets, EMPTY_DIRECTORY);
    fs0 := map[target := DirNode][target + k := LinkNode];
    RelativePath(backup, targets[i]);
    WithinByTail(backup, k);
    WithinByTail(target, k);
    DisplacedNames(target, j, k);
    AllUpload(targets, EMPTY_DIRECTORY);
    hide StagingName, AllUploading, UploadsTo, Within, Below, Runs, Partial, Step, Enabled, Vacant, Initial, Can;
    var fs;
    events, s, fs := Displace(ups, fs0, j);
    DisplacedIsPartial(ups, fs0, s, fs, i, target, backup, k);
  }

  /** An empty directory staged over an existing item, which moves to the backup name whole. */
  lemma Displace(ups: Uploads, fs0: Fs, j: nat) returns (events: seq<Event>, s: State, fs: Fs)
    requires j in ups && ups[j].source == EMPTY_DIRECTORY && ups[j].target in fs0
    requires Vacant(fs0, PartOf(ups, j)) && Vacant(fs0[PartOf(ups, j) := DirNode], BackupOf(ups, j))
    ensures Runs(ups, Initial(ups, fs0), events, s) && fs == fs0[PartOf(ups, j) := DirNode]
    ensures Subtree(s.fs, BackupOf(ups, j)) == Subtree(fs, ups[j].target)
  {
    hide StagingName, Within, Below, Runs, Step, Enabled, Vacant;
    events, s := Stage(ups, fs0, j);
    hide Initial;
    fs := s.fs;
    events, s := Protect(ups, fs0, events, s, j, Done);
    NamesApart(ups[j].target, j);
    RenameMoves(fs, ups[j].target, BackupOf(ups, j));
  }

  lemma DisplacedNames(target: Path, j: nat, k: string)
    requires Within(target, target + k)
    ensures var part, backup, fs0 := StagingName(target, j, Part), StagingName(target, j, Backup),
                                     map[target := DirNode][target + k := LinkNode];
      && Vacant(fs0, part) && Vacant(fs0[part := DirNode], backup)
      && target != part && target + k != part && (Within(backup, backup + k) ==> backup + k !in fs0)
  {
    var part, backup := StagingName(target, j, Part), StagingName(target, j, Backup);
    NamesApart(target, j);
    hide StagingName;
    UnrelatedInside(target, part, target + k);
    UnrelatedInside(target, backup, target + k);
    SelfAndBelow(target);
    SelfAndBelow(target + k);
    SelfAndBelow(part);
    hide Within, Below;
  }

  lemma DisplacedIsPartial(ups: Uploads, fs0: Fs, s: State, fs: Fs, i: nat, target: Path, backup: Path, k: string)
    requires i in ups && (forall id :: id in ups ==> ups[id].source == EMPTY_DIRECTORY)
    requires ups[i].target == backup + k && Within(backup, backup + k) && Within(target, target + k) && backup + k !in fs0
    requires Subtree(s.fs, backup) == Subtree(fs, target) && target + k in fs && fs[target + k] == LinkNode
    ensures Partial(ups, fs0, s, i)
  {
    InSubtree(fs, target, target + k);
    assert (target + k)[|target|..] == k;
    assert k in Subtree(s.fs, backup);
    assert backup + k in s.fs && s.fs[backup + k] == LinkNode;
    SelfAndBelow(backup + k);
    InSubtree(s.fs, backup + k, backup + k);
    NotInSubtree(fs0, backup + k, backup + k);
    assert (backup + k)[|backup + k|..] == "";
    EmptyDirectoryIsBare();
    hide Subtree, Complete;
  }

  lemma {:induction false} CompatibleNeverPartial(targets: map<nat, Path>)
    requires CompatibleTargets(targets)
    ensures NeverPartial(targets)
  {
    hide CompatibleTargets, Runs, UploadsTo, Partial, Initial;
    forall ups: Uploads, fs0, events, s, id | UploadsTo(ups, targets) && Runs(ups, Initial(ups, fs0), events, s) && id in ups
      ensures !Partial(ups, fs0, s, id)
    {
      CompatibleIsWhole(targets, ups, fs0, events, s, id);
    }
  }

  lemma CompatibleIsWhole(targets: map<nat, Path>, ups: Uploads, fs0: Fs, events: seq<Event>, s: State, id: nat)
    requires CompatibleTargets(targets) && UploadsTo(ups, targets) && Runs(ups, Initial(ups, fs0), events, s) && id in ups
    ensures !Partial(ups, fs0, s, id)
  {
    SameTargets(targets, ups);
    hide CompatibleTargets, Compatible, Runs, Subtree, Whole, WellFormed, Initial;
    TargetNeverPartial(ups, fs0, events, s, id);
  }

  lemma SameTargets(targets: map<nat, Path>, ups: Uploads)
    requires CompatibleTargets(targets) && UploadsTo(ups, targets)
    ensures Compatible(ups)
  {
    hide WellFormed, StagingName, Within, Unrelated;
    assert (map j | j in ups :: ups[j].target) == targets;
  }

  /** One of the two ways in which names can clash. */
  lemma Clash(targets: map<nat, Path>) returns (i: nat, j: nat)
    requires !CompatibleTargets(targets)
    ensures i in targets && j in targets
    ensures Below(targets[i], targets[j]) || Within(StagingName(targets[j], j, Part), targets[i]) ||
            Within(StagingName(targets[j], j, Backup), targets[i])
  {
    if i0, j0 :| i0 in targets && j0 in targets && targets[i0] != targets[j0] && !Unrelated(targets[i0], targets[j0]) {
      if Within(targets[i0], targets[j0]) {
        i, j := i0, j0;
      } else {
        i, j := j0, i0;
      }
    } else {
      var i1, j1, role :| i1 in targets && j1 in targets && Within(StagingName(targets[j1], j1, role), targets[i1]);
      i, j := i1, j1;
    }
  }

  lemma ClashIsPartial(targets: map<nat, Path>) returns (ups: Uploads, fs0: Fs, events: seq<Event>, s: State, id: nat)
    requires !CompatibleTargets(targets)
    ensures UploadsTo(ups, targets) && Runs(ups, Initial(ups, fs0), events, s) && id in ups && Partial(ups, fs0, s, id)
  {
    var i, j := Clash(targets);
    NestedHoldsPart(targets[i], targets[j], j);
    hide UploadsTo, Runs, Partial, CompatibleTargets, StagingName;
    if Within(targets[i], StagingName(targets[j], j, Part)) {
      ups, fs0, events, s := OpenedInside(targets, i, j);
      id := i;
    } else if Within(StagingName(targets[j], j, Backup), targets[i]) {
      ups, fs0, events, s := DisplacedOnto(targets, i, j);
      id := i;
    } else {
      ups, fs0, events, s := MovedAlong(targets, i, j);
      id := j;
    }
  }

  lemma NestedHoldsPart(outer: Path, target: Path, id: nat)
    ensures Below(outer, target) ==> Below(outer, StagingName(target, id, Part))
  {
    var part := StagingName(target, id, Part);
    assert part[..|target|] == target;
    if Below(outer, target) {
      assert part[..|outer|] == target[..|outer|];
    }
  }

  /** Side-by-side uploads never show a partial target, whatever is uploaded, exactly when the targets are
      pairwise equal or unrelated and none is, or lies inside, a staging name of another. */
  lemma CompatibleExactly(targets: map<nat, Path>)
    ensures NeverPartial(targets) <==> CompatibleTargets(targets)
  {
    if CompatibleTargets(targets) {
      CompatibleNeverPartial(targets);
    } else {
      hide CompatibleTargets, UploadsTo, Runs, Partial;
      var ups, fs0, events, s, id := ClashIsPartial(targets);
    }
  }
}
