/** The VNC event loop and a reader that polls it, feeding back the last sequence number it was given. */
module VncPolling {
  import opened Basics
  import opened VncFrame

  /** What a server event changes. */
  datatype Change = SetResolution(width: u16, height: u16) | Raw(rect: Rect, pixels: seq<byte>) | Copy(to: Rect, from: Rect)

  const BLANK := Screen(0, 0, [])

  /** The screen after a change, and whether the change counts as an update. */
  function Apply(v: Screen, change: Change): (Screen, bool) {
    match change
    case SetResolution(w, h) =>
      (if Resizable(w, h) then Screen(w, h, Resized(v.frame, w * h * 4)) else v, false)
    case Raw(r, pixels) => if Applicable(v, r, |pixels|) then (Painted(v, r, pixels), true) else (v, false)
    case Copy(to, from) => if Copyable(v, to, from) then (Copied(v, to, from), true) else (v, false)
  }

  /** The screen a list of whole changes leaves. */
  function Replay(changes: seq<Change>): Screen {
    if changes == [] then BLANK else Apply(Replay(changes[..|changes| - 1]), changes[|changes| - 1]).0
  }

  /** A change that is drawn: an image whose corner is on the screen, or a copy with a pixel to move. */
  ghost predicate Draws(v: Screen, change: Change) {
    match change
    case SetResolution(_, _) => false
    case Raw(r, pixels) => OnScreen(v, r.x, r.y) && |pixels| >= 4 * (r.width * r.height)
    case Copy(to, from) => exists dx, dy :: Moves(v, to, from, dx, dy)
  }

  lemma AppliedIfDrawn(v: Screen, change: Change)
    ensures Apply(v, change).1 <==> Draws(v, change)
    ensures !change.SetResolution? && !Draws(v, change) ==> Apply(v, change).0 == v
  {
    match change
    case SetResolution(_, _) =>
    case Raw(r, pixels) => ApplicableIff(v, r, |pixels|);
    case Copy(to, from) => CopyableIff(v, to, from);
  }

  /** What each change makes of a screen. */
  lemma ChangeMeans(v: Screen, change: Change)
    requires Valid(v)
    ensures var v' := Apply(v, change).0;
      && (change.SetResolution? ==>
          if change.width * change.height * 4 > MAX_FRAME_BYTES then v' == v
          else v'.width == change.width && v'.height == change.height && |v'.frame| == change.width * change.height * 4 &&
               forall k :: 0 <= k < |v'.frame| ==> v'.frame[k] == if k < |v.frame| then v.frame[k] else 0)
      && (change.Raw? ==> if Draws(v, change) then Shows(v, v', change.rect, change.pixels) else v' == v)
      && (change.Copy? ==> if Draws(v, change) then Moved(v, v', change.to, change.from) else v' == v)
  {
    AppliedIfDrawn(v, change);
    match change
    case SetResolution(_, _) =>
    case Raw(r, pixels) =>
      if Applicable(v, r, |pixels|) {
        PaintedShows(v, r, pixels);
      }
      hide Shows, Painted, Draws, Applicable;
    case Copy(to, from) =>
      if Copyable(v, to, from) {
        CopiedMoved(v, to, from);
      }
      hide Moved, Copied, Draws, Copyable;
  }

  /** How many of the changes were drawn. */
  ghost function Updates(changes: seq<Change>): nat {
    if changes == [] then 0 else
      var before := changes[..|changes| - 1];
      Updates(before) + if Draws(Replay(before), changes[|changes| - 1]) then 1 else 0
  }

  lemma ReplayNext(changes: seq<Change>, change: Change)
    ensures Replay(changes + [change]) == Apply(Replay(changes), change).0
    ensures Updates(changes + [change]) == Updates(changes) + if Apply(Replay(changes), change).1 then 1 else 0
  {
    assert (changes + [change])[..|changes|] == changes;
    AppliedIfDrawn(Replay(changes), change);
    hide Apply, Draws;
  }

  /** Every reachable screen has exactly its rows and stays within the cap. */
  lemma {:induction false} ReplayIsValid(changes: seq<Change>)
    ensures Valid(Replay(changes))
  {
    if changes != [] {
      ReplayIsValid(changes[..|changes| - 1]);
    }
    hide Blit, Runs;
  }

  // ---- Two tasks ----

  /** The event loop stores the two sizes before it resizes, and counts an update after writing it. */
  datatype Writer = Waiting | StoredWidth(w: u16, h: u16) | StoredSize(w: u16, h: u16) | Counting | Stopped

  datatype Reader =
    | Idle(after: nat)
    | Loaded(after: nat, n: nat)
    | Cloned(n: nat, frame: Option<seq<byte>>)
    | Measured(n: nat, frame: Option<seq<byte>>, width: nat)

  datatype Reply = Reply(sequence: nat, frame: Option<seq<byte>>, width: nat, height: nat)

  /** `history` is every change written to the frame. */
  datatype State = State(history: seq<Change>, width: nat, height: nat, frame: seq<byte>, sequence: nat,
    writer: Writer, reader: Reader, replies: seq<Reply>)

  datatype Event = Server(change: Change) | WriterGoesOn | ReaderGoesOn

  const START := State([], 0, 0, [], 0, Waiting, Idle(0), [])

  function Write(s: State, change: Change): State {
    var (next, counts) := Apply(Screen(s.width, s.height, s.frame), change);
    s.(history := s.history + [change], frame := next.frame, writer := if counts then Counting else Waiting)
  }

  function WriterStep(s: State): State {
    match s.writer
    case StoredWidth(w, h) => s.(height := h, writer := StoredSize(w, h))
    case StoredSize(w, h) =>
      s.(frame := Resized(s.frame, w * h * 4), history := s.history + [SetResolution(w, h)], writer := Waiting)
    case Counting => s.(sequence := s.sequence + 1, writer := Waiting)
    case Waiting => s
    case Stopped => s
  }

  /** A read loads the sequence, clones the frame if that is news, and then loads width and height. */
  function ReaderStep(s: State): State {
    match s.reader
    case Idle(after) => s.(reader := Loaded(after, s.sequence))
    case Loaded(after, n) => s.(reader := Cloned(n, if n > after then Some(s.frame) else None))
    case Cloned(n, frame) => s.(reader := Measured(n, frame, s.width))
    case Measured(n, frame, width) => s.(reader := Idle(n), replies := s.replies + [Reply(n, frame, width, s.height)])
  }

  function Step(s: State, e: Event): State {
    match e
    case Server(change) =>
      if !s.writer.Waiting? then s
      else if change.SetResolution? then
        if Resizable(change.width, change.height)
        then s.(width := change.width, writer := StoredWidth(change.width, change.height))
        else s.(writer := Stopped)
      else Write(s, change)
    case WriterGoesOn => WriterStep(s)
    case ReaderGoesOn => ReaderStep(s)
  }

  function Run(s: State, events: seq<Event>): State
    decreases |events|
  {
    if events == [] then s else Run(Step(s, events[0]), events[1..])
  }

  // ---- Invariant ----

  /** A frame that is the work of whole changes only, `n` updates or more among them. */
  ghost predicate ShowsAll(frame: seq<byte>, n: nat, history: seq<Change>) {
    exists k :: 0 <= k <= |history| && WholeAt(frame, n, history, k)
  }

  ghost predicate WholeAt(frame: seq<byte>, n: nat, history: seq<Change>, k: nat)
    requires k <= |history|
  {
    frame == Replay(history[..k]).frame && Updates(history[..k]) >= n
  }

  lemma ShowsAllLater(frame: seq<byte>, n: nat, history: seq<Change>, change: Change)
    requires ShowsAll(frame, n, history)
    ensures ShowsAll(frame, n, history + [change])
  {
    hide Replay, Updates;
    var k :| 0 <= k <= |history| && WholeAt(frame, n, history, k);
    assert (history + [change])[..k] == history[..k];
    assert WholeAt(frame, n, history + [change], k);
  }

  ghost predicate WriterInv(s: State) {
    var v := Replay(s.history);
    && s.frame == v.frame
    && Updates(s.history) == s.sequence + (if s.writer.Counting? then 1 else 0)
    && (s.writer.StoredWidth? || s.writer.StoredSize? ==> Resizable(s.writer.w, s.writer.h))
    && s.width == (if s.writer.StoredWidth? || s.writer.StoredSize? then s.writer.w else v.width)
    && s.height == (if s.writer.StoredSize? then s.writer.h else v.height)
  }

  ghost predicate ReaderInv(s: State) {
    var last := if s.replies == [] then 0 else s.replies[|s.replies| - 1].sequence;
    match s.reader
    case Idle(after) => after == last && after <= s.sequence
    case Loaded(after, n) => after == last && after <= n <= s.sequence
    case Cloned(n, frame) => GoodClone(last, n, frame, s)
    case Measured(n, frame, _) => GoodClone(last, n, frame, s)
  }

  ghost predicate GoodClone(last: nat, n: nat, frame: Option<seq<byte>>, s: State) {
    && last <= n <= s.sequence
    && (frame.None? ==> n == last)
    && (frame.Some? ==> ShowsAll(frame.value, n, s.history))
  }

  /** One reply after the one before it. */
  ghost predicate GoodReply(replies: seq<Reply>, i: nat, history: seq<Change>)
    requires i < |replies|
  {
    var before := if i == 0 then 0 else replies[i - 1].sequence;
    && before <= replies[i].sequence
    && (replies[i].frame.None? ==> replies[i].sequence == before)
    && (replies[i].frame.Some? ==> ShowsAll(replies[i].frame.value, replies[i].sequence, history))
  }

  ghost predicate RepliesInv(s: State) {
    forall i :: 0 <= i < |s.replies| ==> GoodReply(s.replies, i, s.history)
  }

  ghost predicate Inv(s: State) {
    WriterInv(s) && ReaderInv(s) && RepliesInv(s)
  }

  /** A longer history invalidates no reply. */
  lemma HistoryGrows(s: State, s': State, change: Change)
    requires ReaderInv(s) && RepliesInv(s) && s'.history == s.history + [change]
    requires s'.reader == s.reader && s'.replies == s.replies && s'.sequence == s.sequence
    ensures ReaderInv(s') && RepliesInv(s')
  {
    hide ShowsAll;
    if (s.reader.Cloned? || s.reader.Measured?) && s.reader.frame.Some? {
      ShowsAllLater(s.reader.frame.value, s.reader.n, s.history, change);
    }
    forall i | 0 <= i < |s.replies| ensures GoodReply(s'.replies, i, s'.history) {
      assert GoodReply(s.replies, i, s.history);
      if s.replies[i].frame.Some? {
        ShowsAllLater(s.replies[i].frame.value, s.replies[i].sequence, s.history, change);
      }
    }
  }

  lemma ServerKeeps(s: State, change: Change)
    requires Inv(s)
    ensures Inv(Step(s, Server(change)))
  {
    if s.writer.Waiting? && !change.SetResolution? {
      WriteKeeps(s, change);
    }
    hide ShowsAll, Apply, GoodReply, Replay, Updates, Write;
  }

  lemma WriteKeeps(s: State, change: Change)
    requires Inv(s) && s.writer.Waiting? && !change.SetResolution?
    ensures Inv(Write(s, change))
  {
    hide ShowsAll, Apply, GoodReply, Replay, Updates;
    ReplayNext(s.history, change);
    ApplyKeepsSize(Replay(s.history), change);
    HistoryGrows(s, Write(s, change), change);
    hide ReaderInv, RepliesInv;
  }

  lemma ApplyKeepsSize(v: Screen, change: Change)
    ensures !change.SetResolution? ==> Apply(v, change).0.width == v.width && Apply(v, change).0.height == v.height
  {
  }

  lemma WriterKeeps(s: State)
    requires Inv(s)
    ensures Inv(WriterStep(s))
  {
    hide ShowsAll, Replay, Updates, GoodReply, Resized;
    if s.writer.StoredSize? {
      ResizeKeeps(s);
    }
  }

  lemma ResizeKeeps(s: State)
    requires Inv(s) && s.writer.StoredSize?
    ensures Inv(WriterStep(s))
  {
    hide ShowsAll, Replay, Updates, GoodReply, Resized;
    var change := SetResolution(s.writer.w, s.writer.h);
    ReplayNext(s.history, change);
    HistoryGrows(s, WriterStep(s), change);
    hide ReaderInv, RepliesInv;
  }

  lemma ReaderKeeps(s: State)
    requires Inv(s)
    ensures Inv(ReaderStep(s))
  {
    hide Replay, Updates, Apply;
    if s.reader.Loaded? {
      assert s.history[..|s.history|] == s.history;
      assert WholeAt(s.frame, s.reader.n, s.history, |s.history|);
    }
    hide WholeAt;
    if s.reader.Measured? {
      var replies := ReaderStep(s).replies;
      forall i | 0 <= i < |replies| ensures GoodReply(replies, i, s.history) {
        assert i < |s.replies| ==> GoodReply(s.replies, i, s.history);
      }
    }
  }

  lemma {:induction false} RunKeeps(s: State, events: seq<Event>)
    requires Inv(s)
    ensures Inv(Run(s, events))
    decreases |events|
  {
    if events != [] {
      match events[0] {
        case Server(change) => ServerKeeps(s, change);
        case WriterGoesOn => WriterKeeps(s);
        case ReaderGoesOn => ReaderKeeps(s);
      }
      hide Step, Inv;
      RunKeeps(Step(s, events[0]), events[1..]);
    }
    hide Step, Inv;
  }

  // ---- What the server sent ----

  /** Whether the loop takes the change of this event and goes on; a size beyond the cap ends it. */
  predicate Taken(s: State, e: Event) {
    e.Server? && s.writer.Waiting? && !(e.change.SetResolution? && e.change.width * e.change.height * 4 > MAX_FRAME_BYTES)
  }

  /** The changes the loop has taken, read off the events. */
  ghost function Served(s: State, events: seq<Event>): seq<Change>
    decreases |events|
  {
    if events == [] then [] else
      (if Taken(s, events[0]) then [events[0].change] else []) + Served(Step(s, events[0]), events[1..])
  }

  /** The resize the loop is in the middle of. */
  function Unwritten(s: State): seq<Change> {
    if s.writer.StoredWidth? || s.writer.StoredSize? then [SetResolution(s.writer.w, s.writer.h)] else []
  }

  lemma ServedNext(s: State, e: Event)
    ensures var s' := Step(s, e);
      s'.history + Unwritten(s') == s.history + Unwritten(s) + if Taken(s, e) then [e.change] else []
  {
    hide Apply, Resized;
  }

  /** The loop drops no change and makes up none. */
  lemma {:induction false} ServedInOrder(s: State, events: seq<Event>)
    ensures var s' := Run(s, events); s'.history + Unwritten(s') == s.history + Unwritten(s) + Served(s, events)
    decreases |events|
  {
    hide Step, Unwritten, Taken;
    if events != [] {
      ServedNext(s, events[0]);
      ServedInOrder(Step(s, events[0]), events[1..]);
    }
  }

  /** The loop is ready for the next server event after at most two more actions, unless a size beyond the
      cap has ended it. */
  lemma LoopGoesOn(s: State)
    ensures s.writer.Stopped? || Run(s, [WriterGoesOn, WriterGoesOn]).writer.Waiting?
    ensures s.writer.Waiting? ==> forall e :: Step(s, e).writer.Stopped? <==> e.Server? && !Taken(s, e)
  {
    hide Apply, Resized;
    assert [WriterGoesOn, WriterGoesOn][1..] == [WriterGoesOn];
    assert [WriterGoesOn][1..] == [];
    var s1 := Step(s, WriterGoesOn);
    assert Run(s, [WriterGoesOn, WriterGoesOn]) == Run(s1, [WriterGoesOn]) == Run(Step(s1, WriterGoesOn), []);
  }

  // ---- Main results ----

  lemma Reachable(events: seq<Event>)
    ensures Inv(Run(START, events))
  {
    assert Inv(START);
    RunKeeps(START, events);
    hide Run, Inv;
  }

  /** However the loop and the reader interleave: sequence numbers never decrease; a frame that is
      returned is the work of whole changes, every update up to its number among them; and none is
      returned only when there was no new update. */
  lemma PollerMissesNothing(events: seq<Event>, i: nat)
    requires i < |Run(START, events).replies|
    ensures var s := Run(START, events); var r := s.replies[i]; var before := if i == 0 then 0 else s.replies[i - 1].sequence;
      && before <= r.sequence
      && (r.frame.None? ==> r.sequence == before)
      && (r.frame.Some? ==> ShowsAll(r.frame.value, r.sequence, s.history))
  {
    Reachable(events);
    assert GoodReply(Run(START, events).replies, i, Run(START, events).history);
    hide Run, ShowsAll, WriterInv, ReaderInv;
  }

  /** Between events the screen is what all server changes taken so far make of it, in order, the number
      counts those that were drawn, and the frame has exactly its rows. */
  lemma SequenceCountsUpdates(events: seq<Event>)
    ensures var s := Run(START, events); var changes := Served(START, events);
      && s.history <= changes
      && (s.writer.Waiting? ==>
        && s.sequence == Updates(changes)
        && Screen(s.width, s.height, s.frame) == Replay(changes)
        && |s.frame| == s.width * s.height * 4 <= MAX_FRAME_BYTES)
  {
    Reachable(events);
    ServedInOrder(START, events);
    assert START.history + Unwritten(START) + Served(START, events) == Served(START, events);
    var r := Run(START, events);
    assert r.history + [] == r.history;
    ReplayIsValid(Run(START, events).history);
    hide Run, Replay, Updates, ReaderInv, RepliesInv, Served;
  }

  // ---- When the size in a reply fits its frame ----

  ghost predicate NoRead(events: seq<Event>) {
    forall i :: 0 <= i < |events| ==> !events[i].ReaderGoesOn?
  }

  /** No resize is accepted; one beyond the cap only ends the loop. */
  ghost predicate NoResize(events: seq<Event>) {
    forall i :: 0 <= i < |events| && events[i].Server? && events[i].change.SetResolution? ==>
      !Resizable(events[i].change.width, events[i].change.height)
  }

  predicate Resizing(s: State) {
    s.writer.StoredWidth? || s.writer.StoredSize?
  }

  /** While the reader does not move, it holds what it has and replies nothing. */
  lemma {:induction false} ReaderHolds(s: State, events: seq<Event>)
    requires NoRead(events)
    ensures Run(s, events).reader == s.reader && Run(s, events).replies == s.replies
    decreases |events|
  {
    hide Apply;
    if events != [] {
      ReaderHolds(Step(s, events[0]), events[1..]);
    }
  }

  /** Without a resize the stored size holds still. */
  lemma {:induction false} SizeHolds(s: State, events: seq<Event>)
    requires NoRead(events) && NoResize(events) && !Resizing(s)
    ensures var r := Run(s, events); !Resizing(r) && r.width == s.width && r.height == s.height
    decreases |events|
  {
    hide Apply;
    if events != [] {
      assert !events[0].ReaderGoesOn?;
      SizeHolds(Step(s, events[0]), events[1..]);
    }
  }

  /** One poll, whatever the loop does between its four loads: it answers with the number at the first, the
      frame at the second if that number is news, the width at the third and the height at the fourth. */
  lemma PollReplies(events: seq<Event>, toClone: seq<Event>, toWidth: seq<Event>, toHeight: seq<Event>)
    requires Run(START, events).reader.Idle? && NoRead(toClone) && NoRead(toWidth) && NoRead(toHeight)
    ensures var s := Run(START, events); var atClone := Run(ReaderStep(s), toClone);
      var atWidth := Run(ReaderStep(atClone), toWidth); var atHeight := Run(ReaderStep(atWidth), toHeight);
      var end := ReaderStep(atHeight);
      var last := if s.replies == [] then 0 else s.replies[|s.replies| - 1].sequence;
      && end.replies == s.replies +
         [Reply(s.sequence, if s.sequence > last then Some(atClone.frame) else None, atWidth.width, atHeight.height)]
      && end.reader == Idle(s.sequence)
  {
    hide Run, Replay, Updates, WriterInv, RepliesInv, NoRead;
    Reachable(events);
    var s := Run(START, events);
    assert s.reader.after == if s.replies == [] then 0 else s.replies[|s.replies| - 1].sequence;
    hide Inv;
    var atClone := Run(ReaderStep(s), toClone);
    var atWidth := Run(ReaderStep(atClone), toWidth);
    ReaderHolds(ReaderStep(s), toClone);
    ReaderHolds(ReaderStep(atClone), toWidth);
    ReaderHolds(ReaderStep(atWidth), toHeight);
  }

  /** A frame with its reply: cloned in `s`, its width loaded after `toWidth` and its height after
      `toHeight`, whatever the loop did in between. */
  function ReplyAfter(s: State, toWidth: seq<Event>, toHeight: seq<Event>): State {
    ReaderStep(Run(ReaderStep(Run(ReaderStep(s), toWidth)), toHeight))
  }

  /** In every reachable state in which a read is about to clone a frame: the size in its reply fits the
      frame exactly when the screen cloned has as many pixels as the width and the height then stored. */
  lemma SizeFitsIff(events: seq<Event>, toWidth: seq<Event>, toHeight: seq<Event>)
    requires var s := Run(START, events); s.reader.Loaded? && s.reader.n > s.reader.after
    requires NoRead(toWidth) && NoRead(toHeight)
    ensures var s := Run(START, events); var end := ReplyAfter(s, toWidth, toHeight); var v := Replay(s.history);
      var atWidth := Run(ReaderStep(s), toWidth); var atHeight := Run(ReaderStep(atWidth), toHeight);
      && |end.replies| == |s.replies| + 1
      && var r := end.replies[|s.replies|];
      && r == Reply(s.reader.n, Some(s.frame), atWidth.width, atHeight.height)
      && (|s.frame| == r.width * r.height * 4 <==> v.width * v.height == atWidth.width * atHeight.height)
  {
    var s := Run(START, events);
    Reachable(events);
    ReplayIsValid(s.history);
    ReaderHolds(ReaderStep(s), toWidth);
    ReaderHolds(ReaderStep(Run(ReaderStep(s), toWidth)), toHeight);
    hide Run, Replay, Updates, ReaderInv, RepliesInv, NoRead;
  }

  /** So it fits whenever no resize is under way at the clone or accepted before the size is loaded. */
  lemma SizeFitsWithoutResize(events: seq<Event>, toWidth: seq<Event>, toHeight: seq<Event>)
    requires var s := Run(START, events); s.reader.Loaded? && s.reader.n > s.reader.after && !Resizing(s)
    requires NoRead(toWidth) && NoRead(toHeight) && NoResize(toWidth) && NoResize(toHeight)
    ensures var s := Run(START, events); var end := ReplyAfter(s, toWidth, toHeight);
      && |end.replies| == |s.replies| + 1
      && var r := end.replies[|s.replies|];
      && r.frame == Some(s.frame) && |s.frame| == r.width * r.height * 4
  {
    var s := Run(START, events);
    SizeFitsIff(events, toWidth, toHeight);
    SizeHolds(ReaderStep(s), toWidth);
    SizeHolds(ReaderStep(Run(ReaderStep(s), toWidth)), toHeight);
    Reachable(events);
    hide Run, Replay, Updates, ReaderInv, RepliesInv, NoRead, NoResize;
  }

  lemma {:induction false} RunThen(s: State, events: seq<Event>, e: Event)
    ensures Run(s, events + [e]) == Step(Run(s, events), e)
    decreases |events|
  {
    hide Step;
    if events == [] {
      assert Run(Step(s, e), []) == Step(s, e);
    } else {
      assert (events + [e])[1..] == events[1..] + [e];
      RunThen(Step(s, events[0]), events[1..], e);
    }
  }

  /** A one-pixel screen with one update, cloned by the reader. */
  lemma OnePixelCloned() returns (events: seq<Event>)
    ensures var s := Run(START, events);
      && s.writer.Waiting? && s.width == 1 && s.height == 1
      && s.reader.Cloned? && s.reader.frame.Some? && |s.reader.frame.value| == 4
  {
    var dot := Raw(Rect(0, 0, 1, 1), [1, 2, 3, 4]);
    events := [Server(SetResolution(1, 1))];
    RunThen(START, [], events[0]);
    RunThen(START, events, WriterGoesOn);
    events := events + [WriterGoesOn];
    RunThen(START, events, WriterGoesOn);
    events := events + [WriterGoesOn];
    RunThen(START, events, Server(dot));
    events := events + [Server(dot)];
    RunThen(START, events, WriterGoesOn);
    events := events + [WriterGoesOn];
    RunThen(START, events, ReaderGoesOn);
    events := events + [ReaderGoesOn];
    RunThen(START, events, ReaderGoesOn);
    events := events + [ReaderGoesOn];
    hide Blit;
  }

  /** A run in which it does not fit: a resize comes between the clone and the loads. */
  lemma SizeMayMissTheFrame() returns (events: seq<Event>)
    ensures var s := Run(START, events);
      && s.replies != []
      && (var r := s.replies[|s.replies| - 1]; r.frame.Some? && |r.frame.value| != r.width * r.height * 4)
  {
    events := OnePixelCloned();
    hide Run;
    RunThen(START, events, Server(SetResolution(2, 1)));
    events := events + [Server(SetResolution(2, 1))];
    RunThen(START, events, ReaderGoesOn);
    events := events + [ReaderGoesOn];
    RunThen(START, events, ReaderGoesOn);
    events := events + [ReaderGoesOn];
  }
}
