/** Staged uploads as interleaved processes: every transfer builds its content under a `.part`
    name, moves an existing item to a `.backup` name, renames, and rolls back on error. Each step
    is one remote request, which may succeed, be refused, or take effect although the reply says
    it failed. */
module StagedUploads {
  import opened Basics
  import opened Paths
  import opened RemoteFs
  import opened LocalTree

  datatype Source =
    | LocalFile(content: seq<byte>)
    | LocalDirectory(entries: seq<Entry>)

  datatype Upload = Upload(target: Path, source: Source)

  /** The uploads that may run, by transfer id. */
  type Uploads = map<nat, Upload>

  datatype Phase =
    | Opening
    | Walking(walk: Walk)
    | Copying(at: string, rest: seq<byte>, next: Walk)
    | Closing(next: Walk)
    | Checking
    | Protecting
    | Finalizing(moved: bool)
    | Discarding(moved: bool)
    | Restoring
    | Sweeping
    | Finished(ok: bool)

  /** `Lost`: the server carried the request out but the client saw an error. */
  datatype Outcome = Done | Refused | Lost

  datatype Event =
    | Advance(id: nat, outcome: Outcome, count: nat)  // the next action of a transfer; `count` bounds a read
    | Abort(id: nat)                                  // cancellation, or a local or session error, while staging
    | Remove(id: nat, op: Op)                         // one removal by the cleanup of a transfer

  datatype State = State(fs: Fs, phases: map<nat, Phase>)

  const CHUNK: nat := 64 * 1024

  function PartOf(ups: Uploads, id: nat): Path
    requires id in ups
  {
    StagingName(ups[id].target, id, Part)
  }

  function BackupOf(ups: Uploads, id: nat): Path
    requires id in ups
  {
    StagingName(ups[id].target, id, Backup)
  }

  ghost function Complete(source: Source): map<string, Node> {
    match source
    case LocalFile(content) => map["" := FileNode(content)]
    case LocalDirectory(entries) => Image("", Dir(entries))
  }

  function ReadSize(count: nat, rest: seq<byte>): nat {
    var n := if 1 <= count <= CHUNK then count else CHUNK;
    if n <= |rest| then n else |rest|
  }

  /** The remote request a phase sends next, if any (the metadata probe changes nothing). */
  function Request(ups: Uploads, id: nat, phase: Phase, count: nat): Option<Op>
    requires id in ups
  {
    var target, part, backup := ups[id].target, PartOf(ups, id), BackupOf(ups, id);
    match phase
    case Opening => Some(if ups[id].source.LocalFile? then Truncate(part) else MakeDir(part))
    case Walking(walk) =>
      if walk.current == [] then None
      else if walk.current[0].node.Dir? then Some(MakeDir(part + walk.current[0].path))
      else if walk.current[0].node.File? then Some(Truncate(part + walk.current[0].path))
      else None
    case Copying(at, rest, _) => if rest == [] then None else Some(Append(part + at, rest[..ReadSize(count, rest)]))
    case Protecting => Some(Rename(target, backup))
    case Finalizing(_) => Some(Rename(part, target))
    case Restoring => Some(Rename(backup, target))
    case _ => None
  }

  function OnSuccess(source: Source, phase: Phase, count: nat): Phase {
    match phase
    case Opening =>
      if source.LocalFile? then Copying("", source.content, Walk([], []))
      else Walking(Walk([Item("", Dir(source.entries))], []))
    case Walking(walk) =>
      if walk.current != [] then
        match walk.current[0].node
        case Dir(_) => Walking(Queued(walk))
        case File(content) => Copying(walk.current[0].path, content, Rest(walk))
        case Symlink => Discarding(false)
        case Other => Walking(Rest(walk))
      else if walk.stack != [] then Walking(NextDirectory(walk))
      else Checking
    case Copying(at, rest, next) => if rest == [] then Closing(next) else Copying(at, rest[ReadSize(count, rest)..], next)
    case Closing(next) => Walking(next)
    case Checking => Protecting
    case Protecting => Finalizing(true)
    case Finalizing(moved) => if moved then Sweeping else Finished(true)
    case Discarding(moved) => if moved then Restoring else Finished(false)
    case Restoring => Finished(false)
    case Sweeping => Finished(true)
    case Finished(_) => phase
  }

  function OnError(phase: Phase): Phase {
    match phase
    case Checking => Finalizing(false)
    case Finalizing(moved) => Discarding(moved)
    case Discarding(moved) => if moved then Restoring else Finished(false)
    case Restoring => Finished(false)
    case Sweeping => Finished(true)
    case Finished(_) => phase
    case _ => Discarding(false)
  }

  predicate Staging(phase: Phase) {
    phase.Opening? || phase.Walking? || phase.Copying? || phase.Closing?
  }

  /** A cleanup removal stays inside the name being cleaned. */
  predicate CleansUp(ups: Uploads, id: nat, phase: Phase, op: Op)
    requires id in ups
  {
    && (op.RemoveFile? || op.RemoveDir?)
    && ((phase.Discarding? && Touches(op, PartOf(ups, id))) || (phase.Sweeping? && Touches(op, BackupOf(ups, id))))
  }

  ghost predicate Enabled(ups: Uploads, s: State, e: Event) {
    e.id in ups && e.id in s.phases &&
    var phase := s.phases[e.id];
    match e
    case Advance(id, outcome, count) =>
      && !phase.Finished?
      && (Request(ups, id, phase, count).Some? && outcome != Refused ==> Can(s.fs, Request(ups, id, phase, count).value))
      && (phase.Checking? && outcome == Done ==> ups[id].target in s.fs)
    case Abort(id) => Staging(phase)
    case Remove(id, op) => CleansUp(ups, id, phase, op) && Can(s.fs, op)
  }

  function NextPhase(source: Source, phase: Phase, e: Event): Phase {
    match e
    case Advance(_, outcome, count) => if outcome == Done then OnSuccess(source, phase, count) else OnError(phase)
    case Abort(_) => Discarding(false)
    case Remove(_, _) => phase
  }

  /** The request an event sends, if it takes effect. */
  ghost function Effect(ups: Uploads, s: State, e: Event): Option<Op>
    requires Enabled(ups, s, e)
  {
    match e
    case Advance(id, outcome, count) => if outcome == Refused then None else Request(ups, id, s.phases[id], count)
    case Abort(_) => None
    case Remove(_, op) => Some(op)
  }

  ghost function Step(ups: Uploads, s: State, e: Event): State
    requires Enabled(ups, s, e)
  {
    State(
      if Effect(ups, s, e).Some? then Apply(s.fs, Effect(ups, s, e).value) else s.fs,
      s.phases[e.id := NextPhase(ups[e.id].source, s.phases[e.id], e)])
  }

  ghost predicate Runs(ups: Uploads, s: State, events: seq<Event>, s': State)
    decreases |events|
  {
    if events == [] then s' == s
    else Enabled(ups, s, events[0]) && Runs(ups, Step(ups, s, events[0]), events[1..], s')
  }

  ghost function Initial(ups: Uploads, fs: Fs): State {
    State(fs, map id | id in ups :: Opening)
  }

  ghost predicate Compatible(ups: Uploads) {
    && CompatibleTargets(map id | id in ups :: ups[id].target)
    && (forall id :: id in ups && ups[id].source.LocalDirectory? ==> WellFormed(Dir(ups[id].source.entries)))
  }

  lemma Separation(ups: Uploads, i: nat, j: nat)
    requires Compatible(ups) && i in ups && j in ups
    ensures ups[i].target == ups[j].target || Unrelated(ups[i].target, ups[j].target)
    ensures Unrelated(ups[i].target, PartOf(ups, j)) && Unrelated(ups[i].target, BackupOf(ups, j))
    ensures Unrelated(PartOf(ups, i), BackupOf(ups, j))
    ensures i != j ==> Unrelated(PartOf(ups, i), PartOf(ups, j)) && Unrelated(BackupOf(ups, i), BackupOf(ups, j))
  {
    var targets := map id | id in ups :: ups[id].target;
    TargetVersusStaging(targets, i, j, Part);
    TargetVersusStaging(targets, i, j, Backup);
    StagingVersusStaging(targets, i, Part, j, Backup);
    if i != j {
      StagingVersusStaging(targets, i, Part, j, Part);
      StagingVersusStaging(targets, i, Backup, j, Backup);
    }
  }

  // ---- The invariant ----

  /** Nothing, what was there at the start, or the complete content of one transfer. */
  ghost predicate Whole(ups: Uploads, fs0: Fs, target: Path, t: map<string, Node>) {
    || t == map[]
    || t == Subtree(fs0, target)
    || exists id :: id in ups && ups[id].target == target && t == Complete(ups[id].source)
  }

  ghost predicate PartOk(source: Source, phase: Phase, part: map<string, Node>) {
    var whole := Complete(source);
    match phase
    case Walking(walk) => Covers(part, walk, whole)
    case Copying(at, rest, next) =>
      at in part && part[at].FileNode? && Covers(part[at := FileNode(part[at].content + rest)], next, whole)
    case Closing(next) => Covers(part, next, whole)
    case Checking => part == whole
    case Protecting => part == whole
    case Finalizing(_) => part == whole
    case Sweeping => part == map[]
    case Finished(ok) => ok ==> part == map[]
    case _ => true
  }

  /** Phases in which the displaced original may still have to be put back. */
  predicate HoldsOriginal(phase: Phase) {
    || (phase.Finalizing? && phase.moved)
    || (phase.Discarding? && phase.moved)
    || phase.Restoring?
  }

  /** What the three names of a transfer hold. */
  datatype View = View(target: map<string, Node>, part: map<string, Node>, backup: map<string, Node>)

  ghost function ViewOf(ups: Uploads, fs: Fs, id: nat): View
    requires id in ups
  {
    View(Subtree(fs, ups[id].target), Subtree(fs, PartOf(ups, id)), Subtree(fs, BackupOf(ups, id)))
  }

  ghost predicate ViewOk(ups: Uploads, fs0: Fs, up: Upload, phase: Phase, v: View) {
    && Whole(ups, fs0, up.target, v.target)
    && PartOk(up.source, phase, v.part)
    && (HoldsOriginal(phase) ==> Whole(ups, fs0, up.target, v.backup))
  }

  ghost predicate TransferOk(ups: Uploads, fs0: Fs, s: State, id: nat)
    requires id in ups && id in s.phases
  {
    ViewOk(ups, fs0, ups[id], s.phases[id], ViewOf(ups, s.fs, id))
  }

  ghost predicate Inv(ups: Uploads, fs0: Fs, s: State) {
    && s.phases.Keys == ups.Keys
    && forall id :: id in ups ==> TransferOk(ups, fs0, s, id)
  }

  // ---- What the requests of one transfer leave alone ----

  predicate OwnRequest(ups: Uploads, id: nat, op: Op)
    requires id in ups
  {
    var target, part, backup := ups[id].target, PartOf(ups, id), BackupOf(ups, id);
    match op
    case Rename(from, to) => (from == target && to == backup) || (from == part && to == target) || (from == backup && to == target)
    case _ => Touches(op, part) || Touches(op, backup)
  }

  lemma RequestIsOwn(ups: Uploads, fs: Fs, id: nat, phase: Phase, count: nat)
    requires id in ups && Request(ups, id, phase, count).Some?
    requires PartOk(ups[id].source, phase, Subtree(fs, PartOf(ups, id)))
    ensures var op := Request(ups, id, phase, count).value;
      OwnRequest(ups, id, op) && (op.Rename? || Touches(op, PartOf(ups, id)))
  {
    var part := PartOf(ups, id);
    if phase.Walking? {
      PathIsCovered(Subtree(fs, part), phase.walk, Complete(ups[id].source));
      PathInside(ups[id].source, part, phase.walk.current[0].path);
    } else if phase.Copying? {
      assert part + phase.at in fs && Within(part, part + phase.at);
    }
  }

  lemma PathInside(source: Source, part: Path, k: string)
    requires k in Complete(source)
    ensures Within(part, part + k)
  {
    if source.LocalDirectory? {
      ImageIsWithin("", Dir(source.entries));
    }
    WithinByTail(part, k);
  }

  /** A request of one transfer touches no other target, and no other transfer's staging names. */
  lemma OthersUntouched(ups: Uploads, fs: Fs, id: nat, op: Op, j: nat)
    requires Compatible(ups) && id in ups && j in ups && Can(fs, op) && OwnRequest(ups, id, op)
    ensures j != id ==> Subtree(Apply(fs, op), PartOf(ups, j)) == Subtree(fs, PartOf(ups, j))
    ensures j != id ==> Subtree(Apply(fs, op), BackupOf(ups, j)) == Subtree(fs, BackupOf(ups, j))
    ensures !op.Rename? || ups[j].target != ups[id].target ==> Subtree(Apply(fs, op), ups[j].target) == Subtree(fs, ups[j].target)
  {
    Separation(ups, id, j);
    Separation(ups, j, id);
    Separation(ups, id, id);
    if op.Rename? {
      if j != id {
        RenameKeepsSubtree(fs, op.from, op.to, PartOf(ups, j));
        RenameKeepsSubtree(fs, op.from, op.to, BackupOf(ups, j));
      }
      if ups[j].target != ups[id].target {
        RenameKeepsSubtree(fs, op.from, op.to, ups[j].target);
      }
    } else {
      var area := if Touches(op, PartOf(ups, id)) then PartOf(ups, id) else BackupOf(ups, id);
      if j != id {
        LocalOpKeepsSubtree(fs, op, area, PartOf(ups, j));
        LocalOpKeepsSubtree(fs, op, area, BackupOf(ups, j));
      }
      LocalOpKeepsSubtree(fs, op, area, ups[j].target);
    }
  }

  // ---- Each step keeps the invariant of the transfer that takes it ----

  lemma OwnRename(ups: Uploads, fs: Fs, id: nat, op: Op)
    requires Compatible(ups) && id in ups && op.Rename? && Can(fs, op) && OwnRequest(ups, id, op)
    ensures Subtree(Apply(fs, op), op.to) == Subtree(fs, op.from) && Subtree(Apply(fs, op), op.from) == map[]
    ensures op.from != PartOf(ups, id) ==> Subtree(Apply(fs, op), PartOf(ups, id)) == Subtree(fs, PartOf(ups, id))
    ensures op.from == PartOf(ups, id) ==> Subtree(Apply(fs, op), BackupOf(ups, id)) == Subtree(fs, BackupOf(ups, id))
  {
    Separation(ups, id, id);
    RenameMoves(fs, op.from, op.to);
    if op.from != PartOf(ups, id) {
      RenameKeepsSubtree(fs, op.from, op.to, PartOf(ups, id));
    } else {
      RenameKeepsSubtree(fs, op.from, op.to, BackupOf(ups, id));
    }
  }

  lemma OwnLocal(ups: Uploads, fs: Fs, id: nat, op: Op)
    requires Compatible(ups) && id in ups && !op.Rename? && Can(fs, op) && OwnRequest(ups, id, op)
    ensures Subtree(Apply(fs, op), ups[id].target) == Subtree(fs, ups[id].target)
    ensures Touches(op, PartOf(ups, id)) ==> Subtree(Apply(fs, op), BackupOf(ups, id)) == Subtree(fs, BackupOf(ups, id))
    ensures Touches(op, BackupOf(ups, id)) ==> Subtree(Apply(fs, op), PartOf(ups, id)) == Subtree(fs, PartOf(ups, id))
  {
    Separation(ups, id, id);
    var part, backup := PartOf(ups, id), BackupOf(ups, id);
    LocalOpKeepsSubtree(fs, op, if Touches(op, part) then part else backup, ups[id].target);
    if Touches(op, part) {
      LocalOpKeepsSubtree(fs, op, part, backup);
    }
    if Touches(op, backup) {
      LocalOpKeepsSubtree(fs, op, backup, part);
    }
  }

  /** Opening the staging name leaves nothing but the empty file or the bare directory there. */
  lemma OpeningStep(ups: Uploads, fs: Fs, id: nat, op: Op, count: nat)
    requires Compatible(ups) && id in ups && Request(ups, id, Opening, count) == Some(op) && Can(fs, op)
    ensures PartOk(ups[id].source, OnSuccess(ups[id].source, Opening, count), Subtree(Apply(fs, op), PartOf(ups, id)))
  {
    var part, source := PartOf(ups, id), ups[id].source;
    match source
    case LocalFile(content) =>
      FileBegun(fs, part);
      assert [] + content == content;
    case LocalDirectory(entries) =>
      MadeDir(fs, part);
      hide Subtree, Vacant, Covers;
      StartCovers("", entries);
  }

  lemma FileBegun(fs: Fs, part: Path)
    requires Leaf(fs, part)
    ensures Subtree(fs[part := FileNode([])], part) == map["" := FileNode([])]
  {
    PutInSubtree(fs, part, part, FileNode([]));
    forall k | k in Subtree(fs, part) ensures k == "" {
      WithinByTail(part, k);
    }
  }

  /** Creating the next entry under the staging name, seen from there. */
  lemma EntryInPart(ups: Uploads, fs: Fs, id: nat, walk: Walk, node: Node)
    requires id in ups && walk.current != [] && (walk.current[0].node.Dir? || walk.current[0].node.File?)
    requires Covers(Subtree(fs, PartOf(ups, id)), walk, Complete(ups[id].source))
    ensures Subtree(fs[PartOf(ups, id) + walk.current[0].path := node], PartOf(ups, id))
         == Subtree(fs, PartOf(ups, id))[walk.current[0].path := node]
  {
    var part, at := PartOf(ups, id), walk.current[0].path;
    PathIsCovered(Subtree(fs, part), walk, Complete(ups[id].source));
    PathInside(ups[id].source, part, at);
    assert (part + at)[|part|..] == at;
    PutInSubtree(fs, part, part + at, node);
  }

  lemma FileOpened(source: Source, done: map<string, Node>, walk: Walk)
    requires walk.current != [] && walk.current[0].node.File? && Covers(done, walk, Complete(source))
    ensures PartOk(source, Copying(walk.current[0].path, walk.current[0].node.content, Rest(walk)),
              done[walk.current[0].path := FileNode([])])
  {
    hide Covers, Complete;
    var at, content := walk.current[0].path, walk.current[0].node.content;
    FileCovers(done, walk, Complete(source));
    assert [] + content == content;
    assert done[at := FileNode([])][at := FileNode(content)] == done[at := FileNode(content)];
  }

  lemma WalkingStep(ups: Uploads, fs: Fs, id: nat, walk: Walk, op: Op, count: nat)
    requires id in ups && Request(ups, id, Walking(walk), count) == Some(op) && Can(fs, op)
    requires PartOk(ups[id].source, Walking(walk), Subtree(fs, PartOf(ups, id)))
    ensures PartOk(ups[id].source, OnSuccess(ups[id].source, Walking(walk), count), Subtree(Apply(fs, op), PartOf(ups, id)))
  {
    var source, done := ups[id].source, Subtree(fs, PartOf(ups, id));
    if walk.current[0].node.Dir? {
      EntryInPart(ups, fs, id, walk, DirNode);
      QueuedCovers(done, walk, Complete(source));
    } else {
      EntryInPart(ups, fs, id, walk, FileNode([]));
      FileOpened(source, done, walk);
    }
  }

  lemma CopyingStep(ups: Uploads, fs: Fs, id: nat, phase: Phase, count: nat, op: Op)
    requires Compatible(ups) && id in ups && phase.Copying? && Request(ups, id, phase, count) == Some(op) && Can(fs, op)
    requires PartOk(ups[id].source, phase, Subtree(fs, PartOf(ups, id)))
    ensures PartOk(ups[id].source, OnSuccess(ups[id].source, phase, count), Subtree(Apply(fs, op), PartOf(ups, id)))
  {
    var part, at, rest := PartOf(ups, id), phase.at, phase.rest;
    var n, t := ReadSize(count, rest), Subtree(fs, part);
    assert (part + at)[|part|..] == at;
    var written := t[at].content;
    PutInSubtree(fs, part, part + at, FileNode(written + rest[..n]));
    assert (written + rest[..n]) + rest[n..] == written + rest;
    assert t[at := FileNode(written + rest[..n])][at := FileNode(written + rest)] == t[at := FileNode(written + rest)];
  }

  /** Actions that send no request: the walk moves on, a file is done, staging is complete. */
  lemma SilentStep(source: Source, phase: Phase, count: nat, part: map<string, Node>)
    requires PartOk(source, phase, part)
    requires phase.Walking? ==> phase.walk.current == [] || phase.walk.current[0].node.Symlink? || phase.walk.current[0].node.Other?
    requires phase.Copying? ==> phase.rest == []
    requires !phase.Opening? && !phase.Finalizing? && !phase.Protecting?
    ensures PartOk(source, OnSuccess(source, phase, count), part)
  {
    var whole := Complete(source);
    match phase
    case Walking(walk) =>
      if walk.current == [] && walk.stack != [] {
        NextDirectoryCovers(part, walk, whole);
      } else if walk.current == [] {
        FinishedCovers(part, whole);
      } else if walk.current[0].node.Other? {
        SkipCovers(part, walk, whole);
      }
    case Copying(at, rest, next) =>
      assert part[at].content + rest == part[at].content;
      assert part[at := FileNode(part[at].content)] == part;
    case _ =>
  }

  /** How one event of a transfer can change what its three names hold. */
  ghost predicate Shift(phase: Phase, e: Event, v: View, v': View) {
    match phase
    case Protecting => Same(e, v, v') || (v.backup == map[] && v' == View(map[], v.part, v.target))
    case Finalizing(_) => Same(e, v, v') || (v.target == map[] && v' == View(v.part, map[], v.backup))
    case Restoring => Same(e, v, v') || (v.target == map[] && v' == View(v.backup, v.part, map[]))
    case Sweeping => v'.target == v.target && v'.part == v.part
    case Closing(_) => v' == v
    case Checking => v' == v
    case Finished(_) => v' == v
    case _ => v'.target == v.target && v'.backup == v.backup
  }

  predicate Same(e: Event, v: View, v': View) {
    v' == v && !(e.Advance? && e.outcome == Done)
  }

  /** The event's request is one of the transfer's own, and the step is exactly its effect. */
  lemma EffectIsOwn(ups: Uploads, s: State, e: Event)
    requires Enabled(ups, s, e) && Effect(ups, s, e).Some?
    requires PartOk(ups[e.id].source, s.phases[e.id], Subtree(s.fs, PartOf(ups, e.id)))
    ensures OwnRequest(ups, e.id, Effect(ups, s, e).value) && Can(s.fs, Effect(ups, s, e).value)
    ensures Effect(ups, s, e).value.Rename? <==>
      s.phases[e.id].Protecting? || s.phases[e.id].Finalizing? || s.phases[e.id].Restoring?
    ensures !Effect(ups, s, e).value.Rename? ==>
      Touches(Effect(ups, s, e).value, if s.phases[e.id].Sweeping? then BackupOf(ups, e.id) else PartOf(ups, e.id))
  {
    if e.Advance? {
      RequestIsOwn(ups, s.fs, e.id, s.phases[e.id], e.count);
    }
  }

  lemma StepShifts(ups: Uploads, s: State, e: Event)
    requires Compatible(ups) && Enabled(ups, s, e)
    requires PartOk(ups[e.id].source, s.phases[e.id], Subtree(s.fs, PartOf(ups, e.id)))
    ensures Shift(s.phases[e.id], e, ViewOf(ups, s.fs, e.id), ViewOf(ups, Step(ups, s, e).fs, e.id))
  {
    if Effect(ups, s, e).Some? {
      var op := Effect(ups, s, e).value;
      EffectIsOwn(ups, s, e);
      if op.Rename? {
        OwnRename(ups, s.fs, e.id, op);
        VacantSubtree(s.fs, op.to);
      } else {
        OwnLocal(ups, s.fs, e.id, op);
      }
    }
  }

  /** Events that build content under the staging name. */
  lemma BuildingStep(ups: Uploads, s: State, e: Event)
    requires Compatible(ups) && Enabled(ups, s, e) && e.Advance? && e.outcome == Done
    requires s.phases[e.id].Opening? || s.phases[e.id].Walking? || s.phases[e.id].Copying?
    requires PartOk(ups[e.id].source, s.phases[e.id], Subtree(s.fs, PartOf(ups, e.id)))
    ensures PartOk(ups[e.id].source, OnSuccess(ups[e.id].source, s.phases[e.id], e.count),
              Subtree(Step(ups, s, e).fs, PartOf(ups, e.id)))
  {
    var id, phase := e.id, s.phases[e.id];
    var request := Request(ups, id, phase, e.count);
    if request.None? {
      SilentStep(ups[id].source, phase, e.count, Subtree(s.fs, PartOf(ups, id)));
    } else if phase.Opening? {
      OpeningStep(ups, s.fs, id, request.value, e.count);
    } else if phase.Walking? {
      WalkingStep(ups, s.fs, id, phase.walk, request.value, e.count);
    } else {
      CopyingStep(ups, s.fs, id, phase, e.count, request.value);
    }
  }

  /** All other events. */
  lemma SettlingStep(source: Source, phase: Phase, e: Event, v: View, v': View)
    requires PartOk(source, phase, v.part) && Shift(phase, e, v, v') && Sensible(phase, e)
    requires phase.Opening? || phase.Walking? || phase.Copying? ==> !(e.Advance? && e.outcome == Done)
    ensures PartOk(source, NextPhase(source, phase, e), v'.part)
  {
    if phase.Closing? && e.Advance? && e.outcome == Done {
      SilentStep(source, phase, e.count, v.part);
    }
  }

  /** The part of `Enabled` that only looks at the phase. */
  predicate Sensible(phase: Phase, e: Event) {
    && (e.Advance? ==> !phase.Finished?)
    && (e.Abort? ==> Staging(phase))
    && (e.Remove? ==> phase.Discarding? || phase.Sweeping?)
  }

  lemma PartStep(ups: Uploads, s: State, e: Event)
    requires Compatible(ups) && Enabled(ups, s, e)
    requires PartOk(ups[e.id].source, s.phases[e.id], Subtree(s.fs, PartOf(ups, e.id)))
    ensures PartOk(ups[e.id].source, NextPhase(ups[e.id].source, s.phases[e.id], e), Subtree(Step(ups, s, e).fs, PartOf(ups, e.id)))
  {
    var phase := s.phases[e.id];
    if (phase.Opening? || phase.Walking? || phase.Copying?) && e.Advance? && e.outcome == Done {
      BuildingStep(ups, s, e);
    } else {
      StepShifts(ups, s, e);
      SettlingStep(ups[e.id].source, phase, e, ViewOf(ups, s.fs, e.id), ViewOf(ups, Step(ups, s, e).fs, e.id));
    }
  }

  lemma StagedIsComplete(source: Source, phase: Phase, part: map<string, Node>)
    requires PartOk(source, phase, part) && phase.Finalizing?
    ensures part == Complete(source)
  {
  }

  /** A step only moves whole contents between the target and the backup name. */
  lemma ContentsMove(good: map<string, Node> -> bool, source: Source, phase: Phase, e: Event, v: View, v': View)
    requires good(map[]) && good(v.target)
    requires HoldsOriginal(phase) ==> good(v.backup)
    requires phase.Finalizing? ==> good(v.part)
    requires Shift(phase, e, v, v') && Sensible(phase, e)
    ensures good(v'.target)
    ensures HoldsOriginal(NextPhase(source, phase, e)) ==> good(v'.backup)
  {
  }

  lemma ViewStep(ups: Uploads, fs0: Fs, id: nat, phase: Phase, e: Event, v: View, v': View)
    requires id in ups && Whole(ups, fs0, ups[id].target, v.target)
    requires HoldsOriginal(phase) ==> Whole(ups, fs0, ups[id].target, v.backup)
    requires phase.Finalizing? ==> v.part == Complete(ups[id].source)
    requires Shift(phase, e, v, v') && Sensible(phase, e)
    ensures Whole(ups, fs0, ups[id].target, v'.target)
    ensures HoldsOriginal(NextPhase(ups[id].source, phase, e)) ==> Whole(ups, fs0, ups[id].target, v'.backup)
  {
    ContentsMove(t => Whole(ups, fs0, ups[id].target, t), ups[id].source, phase, e, v, v');
  }

  lemma OwnStep(ups: Uploads, fs0: Fs, s: State, e: Event)
    requires Compatible(ups) && Enabled(ups, s, e) && TransferOk(ups, fs0, s, e.id)
    ensures TransferOk(ups, fs0, Step(ups, s, e), e.id)
  {
    var v, v' := ViewOf(ups, s.fs, e.id), ViewOf(ups, Step(ups, s, e).fs, e.id);
    PartStep(ups, s, e);
    StepShifts(ups, s, e);
    if s.phases[e.id].Finalizing? {
      StagedIsComplete(ups[e.id].source, s.phases[e.id], v.part);
    }
    ViewStep(ups, fs0, e.id, s.phases[e.id], e, v, v');
  }

  lemma OtherStep(ups: Uploads, fs0: Fs, s: State, e: Event, j: nat)
    requires Compatible(ups) && Enabled(ups, s, e) && j in ups && j in s.phases && j != e.id
    requires TransferOk(ups, fs0, s, e.id) && TransferOk(ups, fs0, s, j)
    requires TransferOk(ups, fs0, Step(ups, s, e), e.id)
    ensures TransferOk(ups, fs0, Step(ups, s, e), j)
  {
    hide Compatible, Covers, PartOk, Can, Whole;
    OtherView(ups, s, e, j);
  }

  lemma InvStep(ups: Uploads, fs0: Fs, s: State, e: Event)
    requires Compatible(ups) && Inv(ups, fs0, s) && Enabled(ups, s, e)
    ensures Inv(ups, fs0, Step(ups, s, e))
  {
    hide Compatible, TransferOk, Can, Effect, Apply, NextPhase;
    assert TransferOk(ups, fs0, s, e.id);
    OwnStep(ups, fs0, s, e);
    forall j | j in ups ensures TransferOk(ups, fs0, Step(ups, s, e), j) {
      assert TransferOk(ups, fs0, s, j);
      if j != e.id {
        OtherStep(ups, fs0, s, e, j);
      }
    }
  }

  /** What another transfer sees of an event. */
  lemma OtherView(ups: Uploads, s: State, e: Event, j: nat)
    requires Compatible(ups) && Enabled(ups, s, e) && j in ups && j != e.id
    requires PartOk(ups[e.id].source, s.phases[e.id], Subtree(s.fs, PartOf(ups, e.id)))
    ensures var v, v' := ViewOf(ups, s.fs, j), ViewOf(ups, Step(ups, s, e).fs, j);
      && v'.part == v.part && v'.backup == v.backup
      && (ups[j].target != ups[e.id].target ==> v' == v)
  {
    if Effect(ups, s, e).Some? {
      EffectIsOwn(ups, s, e);
      OthersUntouched(ups, s.fs, e.id, Effect(ups, s, e).value, j);
    }
  }

  lemma {:induction false} InvRuns(ups: Uploads, fs0: Fs, s: State, events: seq<Event>, s': State)
    requires Compatible(ups) && Inv(ups, fs0, s) && Runs(ups, s, events, s')
    ensures Inv(ups, fs0, s')
    decreases |events|
  {
    if events != [] {
      InvStep(ups, fs0, s, events[0]);
      InvRuns(ups, fs0, Step(ups, s, events[0]), events[1..], s');
    }
  }

  lemma InvInitially(ups: Uploads, fs0: Fs)
    ensures Inv(ups, fs0, Initial(ups, fs0))
  {
  }

  /** In every interleaving of any number of uploads, with any request failing at any point,
      each target holds nothing, its starting content, or one transfer's complete content. */
  lemma TargetNeverPartial(ups: Uploads, fs0: Fs, events: seq<Event>, s: State, id: nat)
    requires Compatible(ups) && Runs(ups, Initial(ups, fs0), events, s) && id in ups
    ensures Whole(ups, fs0, ups[id].target, Subtree(s.fs, ups[id].target))
  {
    InvInitially(ups, fs0);
    InvRuns(ups, fs0, Initial(ups, fs0), events, s);
    assert TransferOk(ups, fs0, s, id);
  }

  // ---- A transfer that has its target to itself ----

  ghost predicate Alone(ups: Uploads, id: nat) {
    id in ups && forall j :: j in ups && j != id ==> ups[j].target != ups[id].target
  }

  /** Where the original is, phase by phase. */
  ghost predicate OriginalOk(phase: Phase, original: map<string, Node>, whole: map<string, Node>, v: View) {
    match phase
    case Finalizing(moved) => if moved then v.target == map[] && v.backup == original else v.target == original
    case Discarding(moved) => Unsettled(original, whole, v) && (moved ==> v.backup == original)
    case Restoring => Unsettled(original, whole, v) && v.backup == original
    case Sweeping => v.target == whole
    case Finished(ok) => if ok then v.target == whole else Unsettled(original, whole, v)
    case _ => v.target == original
  }

  /** After an error: the original is at its place or at the backup name, unless there was none. */
  ghost predicate Unsettled(original: map<string, Node>, whole: map<string, Node>, v: View) {
    || v.target == original
    || (v.backup == original && (v.target == map[] || v.target == whole))
    || (original == map[] && v.target == whole)
  }

  ghost predicate AloneOk(ups: Uploads, fs0: Fs, s: State, id: nat)
    requires id in ups && id in s.phases
  {
    OriginalOk(s.phases[id], Subtree(fs0, ups[id].target), Complete(ups[id].source), ViewOf(ups, s.fs, id))
  }

  lemma CompleteIsSomething(source: Source)
    ensures Complete(source) != map[]
  {
    match source
    case LocalFile(content) => assert "" in Complete(source);
    case LocalDirectory(entries) => DirHeadsItsImage("", entries);
  }

  lemma OriginalShift(source: Source, phase: Phase, e: Event, original: map<string, Node>, v: View, v': View)
    requires OriginalOk(phase, original, Complete(source), v) && Shift(phase, e, v, v') && Sensible(phase, e)
    requires phase.Finalizing? ==> v.part == Complete(source)
    ensures OriginalOk(NextPhase(source, phase, e), original, Complete(source), v')
  {
    CompleteIsSomething(source);
  }

  lemma AloneOwnStep(ups: Uploads, fs0: Fs, s: State, e: Event)
    requires Compatible(ups) && Enabled(ups, s, e) && TransferOk(ups, fs0, s, e.id)
    requires AloneOk(ups, fs0, s, e.id)
    ensures AloneOk(ups, fs0, Step(ups, s, e), e.id)
  {
    var id := e.id;
    var v, v' := ViewOf(ups, s.fs, id), ViewOf(ups, Step(ups, s, e).fs, id);
    StepShifts(ups, s, e);
    if s.phases[id].Finalizing? {
      StagedIsComplete(ups[id].source, s.phases[id], v.part);
    }
    OriginalShift(ups[id].source, s.phases[id], e, Subtree(fs0, ups[id].target), v, v');
  }

  lemma AloneOtherStep(ups: Uploads, fs0: Fs, s: State, e: Event, s': State, id: nat)
    requires Compatible(ups) && Enabled(ups, s, e) && s' == Step(ups, s, e)
    requires PartOk(ups[e.id].source, s.phases[e.id], Subtree(s.fs, PartOf(ups, e.id)))
    requires id in ups && e.id != id && ups[e.id].target != ups[id].target && id in s.phases
    ensures id in s'.phases && s'.phases[id] == s.phases[id]
    ensures ViewOf(ups, s'.fs, id) == ViewOf(ups, s.fs, id)
  {
    hide Compatible, Covers, PartOk, Can, ViewOf;
    OtherView(ups, s, e, id);
  }

  lemma AloneOkFrame(ups: Uploads, fs0: Fs, s: State, s': State, id: nat)
    requires id in ups && id in s.phases && id in s'.phases
    requires s'.phases[id] == s.phases[id] && ViewOf(ups, s'.fs, id) == ViewOf(ups, s.fs, id)
    requires AloneOk(ups, fs0, s, id)
    ensures AloneOk(ups, fs0, s', id)
  {
  }

  lemma {:induction false} AloneRuns(ups: Uploads, fs0: Fs, s: State, events: seq<Event>, s': State, id: nat)
    requires Compatible(ups) && Alone(ups, id) && Inv(ups, fs0, s) && Runs(ups, s, events, s')
    requires AloneOk(ups, fs0, s, id)
    ensures id in s'.phases && AloneOk(ups, fs0, s', id)
    decreases |events|
  {
    if events != [] {
      InvStep(ups, fs0, s, events[0]);
      assert TransferOk(ups, fs0, s, events[0].id);
      if events[0].id == id {
        AloneOwnStep(ups, fs0, s, events[0]);
      } else {
        AloneOtherStep(ups, fs0, s, events[0], Step(ups, s, events[0]), id);
        AloneOkFrame(ups, fs0, s, Step(ups, s, events[0]), id);
      }
      AloneRuns(ups, fs0, Step(ups, s, events[0]), events[1..], s', id);
    }
  }

  /** For a transfer alone on its target, the original stays whole at the target or at the backup
      name until the new content is in place; success means the new content is in place. */
  lemma OriginalNeverLost(ups: Uploads, fs0: Fs, events: seq<Event>, s: State, id: nat)
    requires Compatible(ups) && Alone(ups, id) && Runs(ups, Initial(ups, fs0), events, s)
    ensures var original, whole, v := Subtree(fs0, ups[id].target), Complete(ups[id].source), ViewOf(ups, s.fs, id);
      && (v.target == original || v.backup == original || v.target == whole)
      && (id in s.phases && s.phases[id] == Finished(true) ==> v.target == whole)
  {
    InvInitially(ups, fs0);
    AloneRuns(ups, fs0, Initial(ups, fs0), events, s, id);
    var original, whole, v := Subtree(fs0, ups[id].target), Complete(ups[id].source), ViewOf(ups, s.fs, id);
    OriginalSomewhere(s.phases[id], original, whole, v);
  }

  lemma OriginalSomewhere(phase: Phase, original: map<string, Node>, whole: map<string, Node>, v: View)
    requires OriginalOk(phase, original, whole, v)
    ensures v.target == original || v.backup == original || v.target == whole
    ensures phase == Finished(true) ==> v.target == whole
  {
  }

  // ---- Everything else ----

  ghost predicate Involved(ups: Uploads, p: Path) {
    exists id :: id in ups && (Within(ups[id].target, p) || Within(PartOf(ups, id), p) || Within(BackupOf(ups, id), p))
  }

  ghost predicate Unchanged(ups: Uploads, fs0: Fs, fs: Fs) {
    forall p :: !Involved(ups, p) ==> SameAt(fs0, fs, p)
  }

  lemma UninvolvedStep(ups: Uploads, fs0: Fs, s: State, e: Event)
    requires Inv(ups, fs0, s) && Enabled(ups, s, e) && Unchanged(ups, fs0, s.fs)
    ensures Unchanged(ups, fs0, Step(ups, s, e).fs)
  {
    assert TransferOk(ups, fs0, s, e.id);
    if Effect(ups, s, e).Some? {
      var op := Effect(ups, s, e).value;
      EffectIsOwn(ups, s, e);
      forall p | !Involved(ups, p) ensures SameAt(fs0, Apply(s.fs, op), p) {
        assert SameAt(fs0, s.fs, p);
        if op.Rename? {
          RenameFrame(s.fs, op.from, op.to, p);
        } else {
          LocalOpFrame(s.fs, op, p);
        }
      }
    }
  }

  /** Paths outside every target and staging name are never changed. */
  lemma {:induction false} UninvolvedRuns(ups: Uploads, fs0: Fs, s: State, events: seq<Event>, s': State)
    requires Compatible(ups) && Inv(ups, fs0, s) && Unchanged(ups, fs0, s.fs) && Runs(ups, s, events, s')
    ensures Unchanged(ups, fs0, s'.fs)
    decreases |events|
  {
    if events != [] {
      InvStep(ups, fs0, s, events[0]);
      UninvolvedStep(ups, fs0, s, events[0]);
      UninvolvedRuns(ups, fs0, Step(ups, s, events[0]), events[1..], s');
    }
  }

  lemma SuccessLeavesNoPart(ups: Uploads, fs0: Fs, s: State, id: nat)
    requires Inv(ups, fs0, s) && id in ups && s.phases[id] == Finished(true)
    ensures Vacant(s.fs, PartOf(ups, id))
  {
    assert TransferOk(ups, fs0, s, id);
    VacantSubtree(s.fs, PartOf(ups, id));
  }

  lemma EqualSubtrees(fs: Fs, fs': Fs, root: Path, p: Path)
    requires Subtree(fs, root) == Subtree(fs', root) && Within(root, p)
    ensures SameAt(fs, fs', p)
  {
    RelativePath(root, p);
    assert p[|root|..] in Subtree(fs, root) <==> p in fs;
    assert p[|root|..] in Subtree(fs', root) <==> p in fs';
  }

  /** On reported success of a single transfer whose staging name was free and whose backup is
      cleaned away, the target holds the new content and no other path has changed. */
  lemma OnlyTheTargetChanges(ups: Uploads, id: nat, fs0: Fs, events: seq<Event>, s: State)
    requires ups.Keys == {id} && Compatible(ups) && Runs(ups, Initial(ups, fs0), events, s)
    requires id in s.phases && s.phases[id] == Finished(true)
    requires Vacant(fs0, PartOf(ups, id))
    requires Subtree(s.fs, BackupOf(ups, id)) == Subtree(fs0, BackupOf(ups, id))
    ensures Subtree(s.fs, ups[id].target) == Complete(ups[id].source)
    ensures forall p :: !Within(ups[id].target, p) ==> SameAt(fs0, s.fs, p)
  {
    OriginalNeverLost(ups, fs0, events, s, id);
    forall p | !Within(ups[id].target, p) ensures SameAt(fs0, s.fs, p) {
      OtherPathsUnchanged(ups, id, fs0, events, s, p);
    }
  }

  /** The same, path by path. */
  lemma OtherPathsUnchanged(ups: Uploads, id: nat, fs0: Fs, events: seq<Event>, s: State, p: Path)
    requires ups.Keys == {id} && Compatible(ups) && Runs(ups, Initial(ups, fs0), events, s)
    requires id in s.phases && s.phases[id] == Finished(true)
    requires Vacant(fs0, PartOf(ups, id))
    requires Subtree(s.fs, BackupOf(ups, id)) == Subtree(fs0, BackupOf(ups, id))
    requires !Within(ups[id].target, p)
    ensures SameAt(fs0, s.fs, p)
  {
    InvInitially(ups, fs0);
    InvRuns(ups, fs0, Initial(ups, fs0), events, s);
    UninvolvedRuns(ups, fs0, Initial(ups, fs0), events, s);
    SuccessLeavesNoPart(ups, fs0, s, id);
    OutsideTarget(ups, id, fs0, s.fs, p);
  }

  lemma OutsideTarget(ups: Uploads, id: nat, fs0: Fs, fs: Fs, p: Path)
    requires ups.Keys == {id} && Unchanged(ups, fs0, fs) && !Within(ups[id].target, p)
    requires Vacant(fs0, PartOf(ups, id)) && Vacant(fs, PartOf(ups, id))
    requires Subtree(fs, BackupOf(ups, id)) == Subtree(fs0, BackupOf(ups, id))
    ensures SameAt(fs0, fs, p)
  {
    if Within(BackupOf(ups, id), p) {
      EqualSubtrees(fs0, fs, BackupOf(ups, id), p);
    } else if !Within(PartOf(ups, id), p) {
      assert !Involved(ups, p);
    }
  }
}
