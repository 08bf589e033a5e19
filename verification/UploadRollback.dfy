/** When a failed upload puts the displaced item back: exactly when the server's answers to the renames
    are truthful and it carries out the one that restores. */
module UploadRollback {
  import opened Paths
  import opened RemoteFs
  import opened LocalTree
  import opened StagedUploads
  import UploadTargets

  /** The rename that displaces or installs is not carried out behind an error, and the rename that
      restores is not refused. */
  predicate Honoured(phase: Phase, e: Event) {
    e.Advance? ==>
      && (phase.Protecting? || phase.Finalizing? ==> e.outcome != Lost)
      && (phase.Restoring? ==> e.outcome != Refused)
  }

  /** Every answer to one transfer is honoured. When the new content equals the original (`same`),
      installing it behind an error leaves the same at the target, and nothing later changes that. */
  ghost predicate AllHonoured(ups: Uploads, s: State, events: seq<Event>, s': State, id: nat, same: bool)
    requires Runs(ups, s, events, s')
    decreases |events|
  {
    events == [] ||
    (if events[0].id == id && !Honoured(s.phases[id], events[0]) then same && s.phases[id].Finalizing?
     else AllHonoured(ups, Step(ups, s, events[0]), events[1..], s', id, same))
  }

  predicate Renaming(phase: Phase) {
    phase.Protecting? || phase.Finalizing? || phase.Restoring?
  }

  /** A rename either does nothing or moves one whole, existing item to a free name. */
  ghost predicate Exact(phase: Phase, e: Event, v: View, v': View) {
    e.Advance? ==>
      if e.outcome == Refused then v' == v
      else match phase
        case Protecting => v.target != map[] && v' == View(map[], v.part, v.target)
        case Finalizing(_) => v.target == map[] && v' == View(v.part, map[], v.backup)
        case Restoring => v.target == map[] && v' == View(v.backup, v.part, map[])
        case _ => true
  }

  lemma RenameIsExact(ups: Uploads, s: State, e: Event)
    requires Compatible(ups) && Enabled(ups, s, e) && Renaming(s.phases[e.id])
    requires PartOk(ups[e.id].source, s.phases[e.id], Subtree(s.fs, PartOf(ups, e.id)))
    ensures Exact(s.phases[e.id], e, ViewOf(ups, s.fs, e.id), ViewOf(ups, Step(ups, s, e).fs, e.id))
  {
    if e.Advance? && e.outcome != Refused {
      var op := Request(ups, e.id, s.phases[e.id], e.count).value;
      EffectIsOwn(ups, s, e);
      OwnRename(ups, s.fs, e.id, op);
      VacantSubtree(s.fs, op.to);
      PresentSubtree(s.fs, op.from);
      hide Compatible, Subtree, PartOk, CleansUp, Vacant, Renamed;
    }
  }

  lemma PresentSubtree(fs: Fs, p: Path)
    requires p in fs
    ensures Subtree(fs, p) != map[]
  {
    assert p + "" == p;
    assert "" in Subtree(fs, p);
  }

  /** Where the original is while every answer has been honoured. */
  ghost predicate Kept(phase: Phase, original: map<string, Node>, v: View) {
    match phase
    case Finalizing(moved) => if moved then v.target == map[] && v.backup == original != map[] else v.target == original
    case Discarding(moved) => if moved then v.target == map[] && v.backup == original != map[] else v.target == original
    case Restoring => v.target == map[] && v.backup == original != map[]
    case Sweeping => true
    case Finished(ok) => ok || v.target == original
    case _ => v.target == original
  }

  /** After an answer that was not: on the way to failure with something else at the target. */
  ghost predicate Displaced(phase: Phase, original: map<string, Node>, whole: map<string, Node>, v: View) {
    && (phase.Discarding? || phase.Restoring? || phase == Finished(false))
    && v.target != original
    && (phase.Restoring? || (phase.Discarding? && phase.moved) ==> v.target == whole != map[])
  }

  /** After the same content was installed behind an error: it is there to stay. */
  ghost predicate Settled(phase: Phase, original: map<string, Node>, v: View) {
    (phase.Discarding? || phase.Restoring? || phase == Finished(false)) && v.target == original != map[]
  }

  ghost predicate Fact(phase: Phase, e: Event, v: View, v': View) {
    Shift(phase, e, v, v') && Sensible(phase, e) && (Renaming(phase) ==> Exact(phase, e, v, v'))
  }

  lemma KeptStep(source: Source, phase: Phase, e: Event, original: map<string, Node>, v: View, v': View)
    requires Kept(phase, original, v) && Fact(phase, e, v, v') && Honoured(phase, e)
    ensures Kept(NextPhase(source, phase, e), original, v')
  {
  }

  lemma DisplacedHappens(source: Source, phase: Phase, e: Event, original: map<string, Node>, v: View, v': View)
    requires Kept(phase, original, v) && Fact(phase, e, v, v') && !Honoured(phase, e)
    requires phase.Finalizing? ==> v.part == Complete(source) != original
    ensures Displaced(NextPhase(source, phase, e), original, Complete(source), v')
  {
    CompleteIsSomething(source);
  }

  lemma SettledHappens(source: Source, phase: Phase, e: Event, v: View, v': View)
    requires Kept(phase, Complete(source), v) && Fact(phase, e, v, v') && !Honoured(phase, e)
    requires phase.Finalizing? && v.part == Complete(source)
    ensures Settled(NextPhase(source, phase, e), Complete(source), v')
  {
    CompleteIsSomething(source);
  }

  lemma SettledStays(source: Source, phase: Phase, e: Event, original: map<string, Node>, v: View, v': View)
    requires Settled(phase, original, v) && Fact(phase, e, v, v')
    ensures Settled(NextPhase(source, phase, e), original, v')
  {
  }

  lemma DisplacedStays(source: Source, phase: Phase, e: Event, original: map<string, Node>, v: View, v': View)
    requires Displaced(phase, original, Complete(source), v) && Fact(phase, e, v, v')
    ensures Displaced(NextPhase(source, phase, e), original, Complete(source), v')
  {
  }

  ghost predicate KeptAt(ups: Uploads, fs0: Fs, s: State, id: nat)
    requires id in ups && id in s.phases
  {
    Kept(s.phases[id], Subtree(fs0, ups[id].target), ViewOf(ups, s.fs, id))
  }

  ghost predicate DisplacedAt(ups: Uploads, fs0: Fs, s: State, id: nat)
    requires id in ups && id in s.phases
  {
    Displaced(s.phases[id], Subtree(fs0, ups[id].target), Complete(ups[id].source), ViewOf(ups, s.fs, id))
  }

  ghost predicate SettledAt(ups: Uploads, fs0: Fs, s: State, id: nat)
    requires id in ups && id in s.phases
  {
    Settled(s.phases[id], Subtree(fs0, ups[id].target), ViewOf(ups, s.fs, id))
  }

  ghost predicate SameContent(ups: Uploads, fs0: Fs, id: nat)
    requires id in ups
  {
    Subtree(fs0, ups[id].target) == Complete(ups[id].source)
  }

  lemma FactAt(ups: Uploads, fs0: Fs, s: State, e: Event)
    requires Compatible(ups) && Enabled(ups, s, e) && TransferOk(ups, fs0, s, e.id)
    ensures var v, v' := ViewOf(ups, s.fs, e.id), ViewOf(ups, Step(ups, s, e).fs, e.id);
      && Fact(s.phases[e.id], e, v, v')
      && (s.phases[e.id].Finalizing? ==> v.part == Complete(ups[e.id].source))
    ensures Step(ups, s, e).phases[e.id] == NextPhase(ups[e.id].source, s.phases[e.id], e)
  {
    hide Compatible, Shift, Exact, Subtree, Complete;
    StepShifts(ups, s, e);
    if Renaming(s.phases[e.id]) {
      RenameIsExact(ups, s, e);
    }
    if s.phases[e.id].Finalizing? {
      StagedIsComplete(ups[e.id].source, s.phases[e.id], Subtree(s.fs, PartOf(ups, e.id)));
    }
  }

  lemma OwnRollbackStep(ups: Uploads, fs0: Fs, s: State, e: Event)
    requires Compatible(ups) && Enabled(ups, s, e) && TransferOk(ups, fs0, s, e.id)
    ensures var s', phase, settles := Step(ups, s, e), s.phases[e.id], SameContent(ups, fs0, e.id) && s.phases[e.id].Finalizing?;
      && (KeptAt(ups, fs0, s, e.id) && Honoured(phase, e) ==> KeptAt(ups, fs0, s', e.id))
      && (KeptAt(ups, fs0, s, e.id) && !Honoured(phase, e) && !settles ==> DisplacedAt(ups, fs0, s', e.id))
      && (KeptAt(ups, fs0, s, e.id) && !Honoured(phase, e) && settles ==> SettledAt(ups, fs0, s', e.id))
  {
    var id := e.id;
    var phase, source, original := s.phases[id], ups[id].source, Subtree(fs0, ups[id].target);
    var v, v' := ViewOf(ups, s.fs, id), ViewOf(ups, Step(ups, s, e).fs, id);
    hide Fact, Kept, Displaced, Settled, Honoured, Compatible, PartOk, Effect, Can, ViewOf, Subtree, Enabled, Complete;
    FactAt(ups, fs0, s, e);
    if KeptAt(ups, fs0, s, id) {
      if Honoured(phase, e) {
        KeptStep(source, phase, e, original, v, v');
      } else if SameContent(ups, fs0, id) && phase.Finalizing? {
        SettledHappens(source, phase, e, v, v');
      } else {
        DisplacedHappens(source, phase, e, original, v, v');
      }
    }
  }

  lemma OwnStaysStep(ups: Uploads, fs0: Fs, s: State, e: Event)
    requires Compatible(ups) && Enabled(ups, s, e) && TransferOk(ups, fs0, s, e.id)
    ensures DisplacedAt(ups, fs0, s, e.id) ==> DisplacedAt(ups, fs0, Step(ups, s, e), e.id)
    ensures SettledAt(ups, fs0, s, e.id) ==> SettledAt(ups, fs0, Step(ups, s, e), e.id)
  {
    var id := e.id;
    var phase, source, original := s.phases[id], ups[id].source, Subtree(fs0, ups[id].target);
    var v, v' := ViewOf(ups, s.fs, id), ViewOf(ups, Step(ups, s, e).fs, id);
    hide Fact, Displaced, Settled, Compatible, PartOk, Effect, Can, ViewOf, Subtree, Enabled, Complete;
    FactAt(ups, fs0, s, e);
    if DisplacedAt(ups, fs0, s, id) {
      DisplacedStays(source, phase, e, original, v, v');
    }
    if SettledAt(ups, fs0, s, id) {
      SettledStays(source, phase, e, original, v, v');
    }
  }

  lemma OtherRollbackStep(ups: Uploads, fs0: Fs, s: State, e: Event, id: nat)
    requires Compatible(ups) && Alone(ups, id) && Enabled(ups, s, e) && TransferOk(ups, fs0, s, e.id)
    requires e.id != id && id in s.phases
    ensures var s' := Step(ups, s, e);
      && id in s'.phases
      && (KeptAt(ups, fs0, s, id) ==> KeptAt(ups, fs0, s', id))
      && (DisplacedAt(ups, fs0, s, id) ==> DisplacedAt(ups, fs0, s', id))
      && (SettledAt(ups, fs0, s, id) ==> SettledAt(ups, fs0, s', id))
  {
    AloneOtherStep(ups, fs0, s, e, Step(ups, s, e), id);
    hide Kept, Displaced, Settled, Compatible, PartOk, Effect, Can;
  }

  /** Once displaced or settled, always. */
  lemma {:induction false} StaysRuns(ups: Uploads, fs0: Fs, s: State, events: seq<Event>, s': State, id: nat)
    requires Compatible(ups) && Alone(ups, id) && Inv(ups, fs0, s) && Runs(ups, s, events, s') && id in s.phases
    ensures id in s'.phases
    ensures DisplacedAt(ups, fs0, s, id) ==> DisplacedAt(ups, fs0, s', id)
    ensures SettledAt(ups, fs0, s, id) ==> SettledAt(ups, fs0, s', id)
    decreases |events|
  {
    if events != [] {
      var e := events[0];
      InvStep(ups, fs0, s, e);
      assert TransferOk(ups, fs0, s, e.id);
      hide Compatible, Inv, KeptAt, DisplacedAt, SettledAt, TransferOk, Enabled, Alone;
      if e.id == id {
        OwnStaysStep(ups, fs0, s, e);
      } else {
        OtherRollbackStep(ups, fs0, s, e, id);
      }
      StaysRuns(ups, fs0, Step(ups, s, e), events[1..], s', id);
    }
  }

  /** Kept while honoured; from the first answer that is not, displaced, or settled when the content is
      the same. */
  lemma {:induction false} RollbackRuns(ups: Uploads, fs0: Fs, s: State, events: seq<Event>, s': State, id: nat)
    requires Compatible(ups) && Alone(ups, id) && Inv(ups, fs0, s) && Runs(ups, s, events, s')
    requires id in s.phases && KeptAt(ups, fs0, s, id)
    ensures id in s'.phases
    ensures if AllHonoured(ups, s, events, s', id, SameContent(ups, fs0, id))
            then KeptAt(ups, fs0, s', id) || SettledAt(ups, fs0, s', id)
            else DisplacedAt(ups, fs0, s', id)
    decreases |events|
  {
    if events != [] {
      var e := events[0];
      InvStep(ups, fs0, s, e);
      assert TransferOk(ups, fs0, s, e.id);
      hide Compatible, Inv, KeptAt, DisplacedAt, SettledAt, Honoured, TransferOk, Enabled, Alone, SameContent;
      if e.id == id {
        OwnRollbackStep(ups, fs0, s, e);
      } else {
        OtherRollbackStep(ups, fs0, s, e, id);
      }
      StaysRuns(ups, fs0, Step(ups, s, e), events[1..], s', id);
      if e.id != id || Honoured(s.phases[id], e) {
        RollbackRuns(ups, fs0, Step(ups, s, e), events[1..], s', id);
      }
    }
  }

  /** A transfer alone on its target that ends in failure has left the original in its place exactly
      when all answers were honoured; the design promises it always. */
  lemma FailureRestoresIff(ups: Uploads, fs0: Fs, events: seq<Event>, s: State, id: nat)
    requires Compatible(ups) && Alone(ups, id) && Runs(ups, Initial(ups, fs0), events, s)
    requires id in s.phases && s.phases[id] == Finished(false)
    ensures Subtree(s.fs, ups[id].target) == Subtree(fs0, ups[id].target) <==>
      AllHonoured(ups, Initial(ups, fs0), events, s, id, SameContent(ups, fs0, id))
  {
    assert id in ups;
    hide Compatible, Inv, AllHonoured, Runs, KeptAt, DisplacedAt, SettledAt, Alone, Initial, Subtree, SameContent;
    InvInitially(ups, fs0);
    StartsKept(ups, fs0, id);
    RollbackRuns(ups, fs0, Initial(ups, fs0), events, s, id);
    FailedMeans(ups, fs0, s, id);
  }

  /** Whenever the rename that displaces an item takes effect behind an error, a lone upload fails and
      leaves nothing at its target. */
  lemma LostRenameDisplaces(ups: Uploads, fs0: Fs, id: nat) returns (events: seq<Event>, s: State)
    requires ups.Keys == {id} && ups[id].source == LocalDirectory([]) && ups[id].target in fs0
    requires Vacant(fs0, PartOf(ups, id)) && Vacant(fs0[PartOf(ups, id) := DirNode], BackupOf(ups, id))
    ensures Runs(ups, Initial(ups, fs0), events, s) && id in s.phases && s.phases[id] == Finished(false)
    ensures Subtree(s.fs, ups[id].target) == map[] != Subtree(fs0, ups[id].target)
  {
    hide StagingName, Within, Below, Runs, Enabled, Vacant, Subtree, Step;
    events, s := UploadTargets.Stage(ups, fs0, id);
    hide Initial;
    var fs := s.fs;
    events, s := UploadTargets.Protect(ups, fs0, events, s, id, Lost);
    NamesApart(ups[id].target, id);
    RenameMoves(fs, ups[id].target, BackupOf(ups, id));
    GivesUp(ups, s, id);
    events, s := UploadTargets.After(ups, fs0, events, s, Advance(id, Refused, 0));
    PresentSubtree(fs0, ups[id].target);
  }

  lemma GivesUp(ups: Uploads, s: State, id: nat)
    requires id in ups && id in s.phases && s.phases[id] == Discarding(false)
    ensures var e := Advance(id, Refused, 0);
      Enabled(ups, s, e) && Step(ups, s, e) == State(s.fs, s.phases[id := Finished(false)])
  {
    hide StagingName;
  }

  /** So the promise does fail: here a file at `/a` is gone from its place. */
  lemma FailureMayNotRestore() returns (ups: Uploads, fs0: Fs, events: seq<Event>, s: State)
    ensures ups == map[1 := Upload("/a", LocalDirectory([]))] && fs0 == map["/a" := FileNode([0])]
    ensures Runs(ups, Initial(ups, fs0), events, s) && 1 in s.phases && s.phases[1] == Finished(false)
    ensures Subtree(s.fs, "/a") == map[] != Subtree(fs0, "/a")
    ensures !AllHonoured(ups, Initial(ups, fs0), events, s, 1, SameContent(ups, fs0, 1))
  {
    var a := "/a";
    ups, fs0 := map[1 := Upload(a, LocalDirectory([]))], map[a := FileNode([0])];
    NamesApart(a, 1);
    LoneIsCompatible(ups, 1);
    SelfAndBelow(StagingName(a, 1, Part));
    hide StagingName, Within, Below, Runs, Initial, Compatible, Alone, AllHonoured, SameContent, Subtree;
    events, s := LostRenameDisplaces(ups, fs0, 1);
    FailureRestoresIff(ups, fs0, events, s, 1);
  }

  lemma LoneIsCompatible(ups: Uploads, id: nat)
    requires ups.Keys == {id} && ups[id].source == LocalDirectory([])
    ensures Compatible(ups) && Alone(ups, id)
  {
    NamesApart(ups[id].target, id);
    hide StagingName;
  }

  lemma StartsKept(ups: Uploads, fs0: Fs, id: nat)
    requires id in ups
    ensures id in Initial(ups, fs0).phases && KeptAt(ups, fs0, Initial(ups, fs0), id)
  {
    hide Subtree;
  }

  lemma FailedMeans(ups: Uploads, fs0: Fs, s: State, id: nat)
    requires id in ups && id in s.phases && s.phases[id] == Finished(false)
    ensures KeptAt(ups, fs0, s, id) || SettledAt(ups, fs0, s, id) ==> Subtree(s.fs, ups[id].target) == Subtree(fs0, ups[id].target)
    ensures DisplacedAt(ups, fs0, s, id) ==> Subtree(s.fs, ups[id].target) != Subtree(fs0, ups[id].target)
  {
    hide Subtree, Complete;
  }
}
