/** The terminal write scheduler: writes are queued and fed to the emulator in slices, frame by frame,
    within a time budget. */
module WriteScheduler {
  import opened Basics

  const SLICE_BYTES: nat := 8 * 1024

  /** Erase the display, then home the cursor. */
  const CLEAR_SEQUENCE: seq<byte> := [0x1B, 0x5B, 0x32, 0x4A, 0x1B, 0x5B, 0x48]

  /** What the emulator is told. */
  datatype Input = Reset | Byte(value: byte)

  datatype Write = Write(data: seq<byte>, reset: bool)

  /** How a write call is taken; only a queued one is answered later. */
  datatype Reply = Queued | InvalidData | AlreadyDisposed

  /** A queued write; `id` is its number among the accepted writes. */
  datatype Pending = Pending(id: nat, write: Write, offset: nat)

  datatype Outcome = Success | Disposed

  datatype Answer = Answer(id: nat, outcome: Outcome)

  /** `posted` counts the frame callbacks the system holds; `accepted` is the history of writes. */
  datatype State = State(pending: seq<Pending>, frameScheduled: bool, disposed: bool, posted: nat,
    terminal: seq<Input>, answers: seq<Answer>, accepted: seq<Write>)

  const START := State([], false, false, 0, [], [], [])

  function Bytes(data: seq<byte>): seq<Input> {
    seq(|data|, i requires 0 <= i < |data| => Byte(data[i]))
  }

  function Cleared(reset: bool): seq<Input> {
    if reset then [Reset] + Bytes(CLEAR_SEQUENCE) else []
  }

  // ---- One slice, one frame, and the other calls ----

  function SliceEnd(p: Pending): nat {
    Min(|p.write.data|, p.offset + SLICE_BYTES)
  }

  /** What one slice feeds: the reset only in front of the first byte. */
  function SliceInput(p: Pending, end: nat): seq<Input>
    requires p.offset <= end <= |p.write.data|
  {
    Cleared(p.write.reset && p.offset == 0) + Bytes(p.write.data[p.offset..end])
  }

  function Sliced(s: State): State
    requires s.pending != [] && s.pending[0].offset <= |s.pending[0].write.data|
  {
    var p := s.pending[0];
    var end := SliceEnd(p);
    var terminal := s.terminal + SliceInput(p, end);
    if end == |p.write.data|
    then s.(terminal := terminal, pending := s.pending[1..], answers := s.answers + [Answer(p.id, Success)])
    else s.(terminal := terminal, pending := s.pending[0 := p.(offset := end)])
  }

  ghost predicate OffsetsFit(pending: seq<Pending>) {
    forall i :: 0 <= i < |pending| ==> pending[i].offset <= |pending[i].write.data|
  }

  /** The state after `n` slices. */
  function Drained(s: State, n: nat): (r: State)
    requires OffsetsFit(s.pending)
    ensures OffsetsFit(r.pending)
  {
    if n == 0 then s else
      var before := Drained(s, n - 1);
      if before.pending == [] then before else Sliced(before)
  }

  function Scheduled(s: State): State {
    if s.frameScheduled || s.disposed then s else s.(frameScheduled := true, posted := s.posted + 1)
  }

  /** A posted frame that gets through `n` slices before its budget is spent. */
  function FrameRun(s: State, n: nat): State
    requires OffsetsFit(s.pending) && s.posted > 0
  {
    var s0 := s.(frameScheduled := false, posted := s.posted - 1);
    if s.disposed then s0 else
      var s1 := Drained(s0, n);
      if s1.pending != [] then Scheduled(s1) else s1
  }

  function Enqueued(s: State, w: Write): State {
    if s.disposed then s
    else Scheduled(s.(pending := s.pending + [Pending(|s.accepted|, w, 0)], accepted := s.accepted + [w]))
  }

  function Dropped(pending: seq<Pending>): seq<Answer> {
    seq(|pending|, i requires 0 <= i < |pending| => Answer(pending[i].id, Disposed))
  }

  function DisposedState(s: State): State {
    if s.disposed then s else
      s.(disposed := true, posted := if s.frameScheduled then 0 else s.posted,
         answers := s.answers + Dropped(s.pending), pending := [])
  }

  lemma Appended(terminal: seq<Input>, reset: bool)
    ensures terminal + Cleared(reset) == if reset then terminal + [Reset] + Bytes(CLEAR_SEQUENCE) else terminal
    ensures forall rest :: terminal + Cleared(reset) + rest == terminal + (Cleared(reset) + rest)
  {
    hide Bytes;
  }

  /** What remains to be fed. */
  function Remaining(pending: seq<Pending>): seq<Input>
    requires OffsetsFit(pending)
  {
    if pending == [] then [] else SliceInput(pending[0], |pending[0].write.data|) + Remaining(pending[1..])
  }

  /** Everything the emulator was told and is still to be told. */
  function Told(s: State): seq<Input>
    requires OffsetsFit(s.pending)
  {
    s.terminal + Remaining(s.pending)
  }

  lemma FrontFits(pending: seq<Pending>)
    requires OffsetsFit(pending) && pending != []
    ensures pending[0].offset <= |pending[0].write.data|
  {
  }

  /** A slice moves input from the queue to the emulator, and nothing else. */
  lemma SliceConserves(s: State)
    requires s.pending != [] && OffsetsFit(s.pending)
    ensures OffsetsFit(Sliced(s).pending) && Told(Sliced(s)) == Told(s)
  {
    var p, end, r := s.pending[0], SliceEnd(s.pending[0]), Sliced(s);
    SliceInTwo(p, end);
    if end == |p.write.data| {
      hide SliceInput;
      Regroup(s.terminal, SliceInput(p, end), Remaining(s.pending[1..]), []);
    } else {
      assert r.pending[1..] == s.pending[1..];
      hide SliceInput;
      var q := p.(offset := end);
      Regroup(SliceInput(p, end), SliceInput(q, |q.write.data|), Remaining(s.pending[1..]), []);
      Regroup(s.terminal, SliceInput(p, end), Remaining(r.pending), []);
    }
  }

  lemma SliceInTwo(p: Pending, end: nat)
    requires p.offset <= end <= |p.write.data| && (end == 0 ==> p.write.data == [])
    ensures end < |p.write.data| ==>
      SliceInput(p, end) + SliceInput(p.(offset := end), |p.write.data|) == SliceInput(p, |p.write.data|)
  {
    if end < |p.write.data| {
      var d := p.write.data;
      assert Bytes(d[p.offset..end]) + Bytes(d[end..|d|]) == Bytes(d[p.offset..|d|]);
      hide Bytes;
      assert Cleared(false) == [];
      hide Cleared;
      Regroup(Cleared(p.write.reset && p.offset == 0), Bytes(d[p.offset..end]), Bytes(d[end..|d|]), []);
    }
  }

  // ---- The view, changed in place ----

  class TerminalView {
    var pendingWrites: seq<Pending>
    var frameScheduled: bool
    var disposed: bool
    var posted: nat
    var terminal: seq<Input>
    var answers: seq<Answer>
    var accepted: seq<Write>

    function Value(): State
      reads this
    {
      State(pendingWrites, frameScheduled, disposed, posted, terminal, answers, accepted)
    }

    constructor ()
      ensures Value() == START
    {
      pendingWrites, frameScheduled, disposed, posted, terminal, answers, accepted := [], false, false, 0, [], [], [];
    }

    method ScheduleDrain()
      modifies this
      ensures Value() == Scheduled(old(Value()))
    {
      if frameScheduled || disposed {
        return;
      }
      frameScheduled := true;
      posted := posted + 1;
    }

    /** A write call. A disposed view, or a call without bytes, is answered with an error at once. */
    method EnqueueWrite(data: Option<seq<byte>>, reset: bool) returns (reply: Reply)
      modifies this
      ensures reply == if old(disposed) then AlreadyDisposed else if data.None? then InvalidData else Queued
      ensures Value() == if data.Some? then Enqueued(old(Value()), Write(data.value, reset)) else old(Value())
    {
      if disposed {
        return AlreadyDisposed;
      }
      if data.None? {
        return InvalidData;
      }
      var w := Write(data.value, reset);
      pendingWrites := pendingWrites + [Pending(|accepted|, w, 0)];
      accepted := accepted + [w];
      ScheduleDrain();
      reply := Queued;
    }

    /** The emulator calls of one turn of the drain loop. */
    method FeedSlice(pending: Pending, end: nat)
      requires pending.offset <= end <= |pending.write.data|
      modifies this`terminal
      ensures terminal == old(terminal) + SliceInput(pending, end)
    {
      hide Bytes;
      ghost var before := terminal;
      if pending.write.reset && pending.offset == 0 {
        terminal := terminal + [Reset];
        terminal := terminal + Bytes(CLEAR_SEQUENCE);
      }
      Appended(before, pending.write.reset && pending.offset == 0);
      hide Cleared;
      terminal := terminal + Bytes(pending.write.data[pending.offset..end]);
    }

    /** One turn of the drain loop. */
    method WriteSlice()
      requires pendingWrites != [] && OffsetsFit(pendingWrites)
      modifies this
      ensures Value() == Sliced(old(Value()))
      ensures OffsetsFit(pendingWrites) && Told(Value()) == old(Told(Value()))
    {
      hide SliceInput, Told, Remaining, OffsetsFit;
      ghost var s := Value();
      FrontFits(pendingWrites);
      var pending := pendingWrites[0];
      var end := Min(|pending.write.data|, pending.offset + SLICE_BYTES);
      FeedSlice(pending, end);
      pendingWrites := pendingWrites[0 := pending.(offset := end)];
      if end == |pending.write.data| {
        pendingWrites := pendingWrites[1..];
        answers := answers + [Answer(pending.id, Success)];
      }
      assert Value() == Sliced(s);
      hide Sliced;
      SliceConserves(s);
    }

    /** Runs a posted frame; when the budget ends is not determined, but one slice always fits. */
    method DrainWrites() returns (slices: nat)
      requires OffsetsFit(pendingWrites) && posted > 0
      modifies this
      ensures Value() == FrameRun(old(Value()), slices)
      ensures !disposed && old(pendingWrites) != [] ==> slices > 0
      ensures OffsetsFit(pendingWrites) && Told(Value()) == old(Told(Value()))
    {
      hide Remaining;
      slices := 0;
      frameScheduled := false;
      posted := posted - 1;
      if disposed {
        return;
      }
      ghost var s := Value();
      while pendingWrites != []
        invariant Value() == Drained(s, slices) && OffsetsFit(pendingWrites) && Told(Value()) == Told(s)
        invariant s.pending != [] && slices == 0 ==> pendingWrites != []
        decreases |pendingWrites|, if pendingWrites == [] then 0 else |pendingWrites[0].write.data| - pendingWrites[0].offset
      {
        hide Bytes, Cleared, Told, SliceInput;
        WriteSlice();
        slices := slices + 1;
        var budgetSpent := *;
        if budgetSpent {
          break;
        }
      }
      if pendingWrites != [] {
        ScheduleDrain();
      }
    }

    method Dispose()
      modifies this
      ensures Value() == DisposedState(old(Value()))
    {
      if disposed {
        return;
      }
      disposed := true;
      if frameScheduled {
        posted := 0;
      }
      ghost var s, before := pendingWrites, answers;
      ghost var n := 0;
      while pendingWrites != []
        invariant n + |pendingWrites| == |s| && pendingWrites == s[n..]
        invariant answers == before + Dropped(s)[..n]
        invariant disposed && frameScheduled == old(frameScheduled) && posted == (if frameScheduled then 0 else old(posted))
        invariant terminal == old(terminal) && accepted == old(accepted)
        decreases |pendingWrites|
      {
        answers := answers + [Answer(pendingWrites[0].id, Disposed)];
        pendingWrites := pendingWrites[1..];
        assert Dropped(s)[..n + 1] == Dropped(s)[..n] + [Dropped(s)[n]];
        n := n + 1;
      }
      assert Dropped(s)[..n] == Dropped(s);
    }
  }

  // ---- Runs ----

  datatype Event = Enqueue(write: Write) | Frame(slices: nat) | Dispose

  ghost function Step(s: State, e: Event): State {
    match e
    case Enqueue(w) => Enqueued(s, w)
    case Frame(n) => if s.posted > 0 && OffsetsFit(s.pending) then FrameRun(s, n) else s
    case Dispose => DisposedState(s)
  }

  ghost function Run(s: State, events: seq<Event>): State
    decreases |events|
  {
    if events == [] then s else Run(Step(s, events[0]), events[1..])
  }

  /** Everything the emulator should be told for a write, and for a list of writes in order. */
  function Whole(w: Write): seq<Input> {
    Cleared(w.reset) + Bytes(w.data)
  }

  function Expected(writes: seq<Write>): seq<Input> {
    if writes == [] then [] else Expected(writes[..|writes| - 1]) + Whole(writes[|writes| - 1])
  }

  /** The part of a write that has been fed when its offset is `offset`. */
  function Part(w: Write, offset: nat): seq<Input>
    requires offset <= |w.data|
  {
    if offset == 0 then [] else Cleared(w.reset) + Bytes(w.data[..offset])
  }

  /** What the front write has been fed so far. */
  function Front(pending: seq<Pending>): seq<Input>
    requires OffsetsFit(pending)
  {
    if pending == [] then [] else Part(pending[0].write, pending[0].offset)
  }

  /** The first `n` writes are answered with success and fed; the rest are queued, untouched but for
      the front one. */
  ghost predicate Fed(s: State, n: nat) {
    && n + |s.pending| == |s.accepted|
    && s.answers == seq(n, i requires 0 <= i < n => Answer(i, Success))
    && QueueIs(s, n) && OffsetsFit(s.pending)
    && s.terminal == Expected(s.accepted[..n]) + Front(s.pending)
  }

  ghost predicate QueueIs(s: State, n: nat)
    requires n + |s.pending| == |s.accepted|
  {
    forall k :: 0 <= k < |s.pending| ==>
      && s.pending[k].id == n + k && s.pending[k].write == s.accepted[n + k]
      && (s.pending[k].offset == 0 || (k == 0 && s.pending[k].offset < |s.pending[k].write.data|))
  }

  /** After disposal: the first `n` writes succeeded, the others got the dispose error, and the emulator
      was told the first `n` and a part of the next. */
  ghost predicate Ended(s: State, n: nat, offset: nat) {
    && n <= |s.accepted| && s.pending == []
    && s.answers == seq(|s.accepted|, i requires 0 <= i < |s.accepted| => Answer(i, if i < n then Success else Disposed))
    && (n == |s.accepted| ==> offset == 0)
    && (n < |s.accepted| ==> offset <= |s.accepted[n].data|)
    && s.terminal == Expected(s.accepted[..n]) + (if n < |s.accepted| then Part(s.accepted[n], offset) else [])
  }

  ghost predicate Inv(s: State) {
    && (!s.disposed ==> Fed(s, |s.answers|) && (s.frameScheduled <==> s.pending != []))
    && s.posted == (if s.pending != [] && !s.disposed then 1 else 0)
    && (s.disposed ==> exists n, offset :: Ended(s, n, offset))
  }

  lemma BytesJoin(data: seq<byte>, from: nat, end: nat)
    requires from <= end <= |data|
    ensures Bytes(data[..from]) + Bytes(data[from..end]) == Bytes(data[..end])
  {
  }

  /** The rest of a write follows what has been fed. */
  lemma PartGrows(p: Pending, end: nat)
    requires p.offset <= end <= |p.write.data| && (p.offset < end || p.offset == end == |p.write.data| == 0)
    ensures Part(p.write, p.offset) + SliceInput(p, end) == if end == |p.write.data| then Whole(p.write) else Part(p.write, end)
  {
    var w, from := p.write, p.offset;
    assert w.data[..|w.data|] == w.data && w.data[0..end] == w.data[..end];
    BytesJoin(w.data, from, end);
    hide Bytes;
    assert from > 0 ==> SliceInput(p, end) == Bytes(w.data[from..end]);
    hide Cleared;
    Regroup(Cleared(w.reset), Bytes(w.data[..from]), Bytes(w.data[from..end]), []);
  }

  lemma ExpectedNext(writes: seq<Write>, n: nat)
    requires n < |writes|
    ensures Expected(writes[..n + 1]) == Expected(writes[..n]) + Whole(writes[n])
  {
    assert writes[..n + 1][..n] == writes[..n];
    hide Whole;
  }

  lemma SlicedTerminal(s: State)
    requires Fed(s, |s.answers|) && s.pending != []
    ensures var p := s.pending[0]; var n := |s.answers|; var r := Sliced(s);
      && n < |s.accepted| && p.write == s.accepted[n]
      && (SliceEnd(p) == |p.write.data| ==> r.terminal == Expected(s.accepted[..n + 1]))
      && (SliceEnd(p) != |p.write.data| ==> r.terminal == Expected(s.accepted[..n]) + Part(p.write, SliceEnd(p)))
  {
    var p := s.pending[0];
    var n := |s.answers|;
    var end := SliceEnd(p);
    PartGrows(p, end);
    ExpectedNext(s.accepted, n);
    hide Expected, Part, Whole, SliceInput, QueueIs, OffsetsFit;
    Regroup(Expected(s.accepted[..n]), Part(p.write, p.offset), SliceInput(p, end), []);
  }

  lemma Regroup(a: seq<Input>, b: seq<Input>, c: seq<Input>, d: seq<Input>)
    ensures a + b + c == a + (b + c)
    ensures a + b + (c + d) == a + (b + c) + d
  {
  }

  lemma SlicedKeeps(s: State)
    requires !s.disposed && Fed(s, |s.answers|) && s.pending != []
    ensures Fed(Sliced(s), |Sliced(s).answers|)
  {
    SlicedTerminal(s);
    SlicedQueue(s);
    SlicedAnswers(s);
    var r, p, n := Sliced(s), s.pending[0], |s.answers|;
    assert r.accepted == s.accepted;
    hide Expected, Whole, SliceInput, QueueIs, Part;
    if SliceEnd(p) == |p.write.data| {
      assert r.terminal + [] == r.terminal;
    }
  }

  lemma SlicedAnswers(s: State)
    requires Fed(s, |s.answers|) && s.pending != []
    ensures var r := Sliced(s); var n := |r.answers|; r.answers == seq(n, i requires 0 <= i < n => Answer(i, Success))
  {
    hide Expected, Front, SliceInput;
  }

  lemma SlicedQueue(s: State)
    requires s.pending != [] && |s.answers| + |s.pending| == |s.accepted| && QueueIs(s, |s.answers|) && OffsetsFit(s.pending)
    ensures var r := Sliced(s); var p := s.pending[0];
      && |r.answers| + |r.pending| == |r.accepted| && QueueIs(r, |r.answers|) && OffsetsFit(r.pending)
      && |r.answers| == (if SliceEnd(p) == |p.write.data| then |s.answers| + 1 else |s.answers|)
      && Front(r.pending) == if SliceEnd(p) == |p.write.data| then [] else Part(p.write, SliceEnd(p))
  {
    hide SliceInput;
  }

  lemma {:induction false} DrainedKeeps(s: State, n: nat)
    requires !s.disposed && Fed(s, |s.answers|) && OffsetsFit(s.pending)
    ensures var r := Drained(s, n);
      !r.disposed && Fed(r, |r.answers|) && r.frameScheduled == s.frameScheduled && r.posted == s.posted
  {
    hide Fed;
    if n > 0 {
      DrainedKeeps(s, n - 1);
      var before := Drained(s, n - 1);
      if before.pending != [] {
        SlicedKeeps(before);
      }
      hide Bytes, Cleared;
    }
  }

  lemma FrameKeeps(s: State, n: nat)
    requires Inv(s) && s.posted > 0
    ensures OffsetsFit(s.pending) && Inv(FrameRun(s, n))
  {
    hide Drained, Expected, Front, QueueIs, Ended;
    var s0 := s.(frameScheduled := false, posted := s.posted - 1);
    SameButFrames(s, s0);
    assert OffsetsFit(s.pending);
    hide Fed;
    DrainedKeeps(s0, n);
    SameButFrames(Drained(s0, n), FrameRun(s, n));
  }

  lemma SameButFrames(s: State, r: State)
    requires r == s.(frameScheduled := r.frameScheduled, posted := r.posted)
    ensures Fed(s, |s.answers|) ==> Fed(r, |r.answers|)
  {
    hide Expected, Part;
  }

  lemma EnqueueKeeps(s: State, w: Write)
    requires Inv(s)
    ensures Inv(Enqueued(s, w))
  {
    if !s.disposed {
      assert (s.accepted + [w])[..|s.answers|] == s.accepted[..|s.answers|];
      QueueGrows(s, w);
    }
    hide Expected, QueueIs, Ended, Front, Scheduled;
  }

  lemma QueueGrows(s: State, w: Write)
    requires !s.disposed && |s.answers| + |s.pending| == |s.accepted| && QueueIs(s, |s.answers|)
    ensures var r := Enqueued(s, w);
      && |r.answers| + |r.pending| == |r.accepted| && QueueIs(r, |r.answers|)
      && (OffsetsFit(s.pending) ==> OffsetsFit(r.pending) && Front(r.pending) == Front(s.pending))
  {
  }

  lemma DroppedAnswers(s: State)
    requires Fed(s, |s.answers|)
    ensures var n := |s.answers|;
      s.answers + Dropped(s.pending) ==
        seq(|s.accepted|, i requires 0 <= i < |s.accepted| => Answer(i, if i < n then Success else Disposed))
  {
    hide Expected, Front;
  }

  lemma FrontIsNext(s: State)
    requires Fed(s, |s.answers|)
    ensures var n := |s.answers|;
      && (s.pending == [] ==> n == |s.accepted| && Front(s.pending) == [])
      && (s.pending != [] ==> n < |s.accepted| && s.pending[0].offset <= |s.accepted[n].data|
                               && Front(s.pending) == Part(s.accepted[n], s.pending[0].offset))
  {
    hide Expected, Part;
  }

  lemma DisposeKeeps(s: State)
    requires Inv(s)
    ensures Inv(DisposedState(s))
  {
    if !s.disposed {
      var n, r := |s.answers|, DisposedState(s);
      var offset := if s.pending == [] then 0 else s.pending[0].offset;
      DroppedAnswers(s);
      hide Expected, Part, QueueIs, Dropped;
      assert s.terminal == Expected(s.accepted[..n]) + (if n < |s.accepted| then Part(s.accepted[n], offset) else []) by {
        FrontIsNext(s);
      }
      assert Ended(r, n, offset);
    }
    hide Ended;
  }

  lemma {:induction false} RunKeeps(s: State, events: seq<Event>)
    requires Inv(s)
    ensures Inv(Run(s, events))
    decreases |events|
  {
    if events != [] {
      match events[0] {
        case Enqueue(w) => EnqueueKeeps(s, w);
        case Frame(n) => if s.posted > 0 { FrameKeeps(s, n); }
        case Dispose => DisposeKeeps(s);
      }
      hide Inv, Enqueued, FrameRun, DisposedState;
      RunKeeps(Step(s, events[0]), events[1..]);
    }
    hide Inv, Step;
  }

  // ---- Main results ----

  lemma Reachable(events: seq<Event>)
    ensures Inv(Run(START, events))
  {
    assert Inv(START);
    RunKeeps(START, events);
    hide Run, Inv;
  }

  lemma FreshPart(p: Pending)
    requires p.offset == 0
    ensures Part(p.write, p.offset) + SliceInput(p, |p.write.data|) == SliceInput(p, |p.write.data|)
  {
    hide SliceInput;
  }

  lemma RemainingFrom(pending: seq<Pending>, k: nat)
    requires OffsetsFit(pending) && k < |pending|
    ensures OffsetsFit(pending[k..]) && OffsetsFit(pending[k + 1..])
    ensures Remaining(pending[k..]) == SliceInput(pending[k], |pending[k].write.data|) + Remaining(pending[k + 1..])
  {
    assert pending[k..][1..] == pending[k + 1..];
    hide SliceInput;
  }

  lemma {:induction false} UntouchedRemain(s: State, n: nat, k: nat)
    requires n + |s.pending| == |s.accepted| && QueueIs(s, n) && OffsetsFit(s.pending) && 0 < k <= |s.pending|
    ensures OffsetsFit(s.pending[k..])
    ensures Expected(s.accepted[..n + k]) + Remaining(s.pending[k..]) == Expected(s.accepted)
    decreases |s.pending| - k
  {
    if k == |s.pending| {
      assert s.accepted[..n + k] == s.accepted;
    } else {
      var p := s.pending[k];
      UntouchedRemain(s, n, k + 1);
      ExpectedNext(s.accepted, n + k);
      PartGrows(p, |p.write.data|);
      FreshPart(p);
      RemainingFrom(s.pending, k);
      hide Expected, Whole, SliceInput, Part, QueueIs, OffsetsFit, Remaining;
      Regroup(Expected(s.accepted[..n + k]), Whole(p.write), Remaining(s.pending[k + 1..]), []);
    }
  }

  /** Whatever the budgets, what the emulator was told followed by what is still queued is exactly the
      accepted writes in order, each reset once before its own data. */
  lemma NothingLostOrReordered(events: seq<Event>)
    requires !Run(START, events).disposed
    ensures var s := Run(START, events);
      OffsetsFit(s.pending) && s.terminal + Remaining(s.pending) == Expected(s.accepted)
  {
    Reachable(events);
    TerminalPlusRemaining(Run(START, events));
    hide Run, Fed, Ended;
  }

  lemma TerminalPlusRemaining(s: State)
    requires !s.disposed && Fed(s, |s.answers|)
    ensures OffsetsFit(s.pending) && s.terminal + Remaining(s.pending) == Expected(s.accepted)
  {
    var n := |s.answers|;
    if s.pending == [] {
      assert s.accepted[..n] == s.accepted;
      hide Expected;
    } else {
      QueueRemains(s, n);
      hide Expected, Front, Remaining, QueueIs, OffsetsFit;
    }
  }

  lemma QueueRemains(s: State, n: nat)
    requires n + |s.pending| == |s.accepted| && QueueIs(s, n) && OffsetsFit(s.pending) && s.pending != []
    ensures Expected(s.accepted[..n]) + Front(s.pending) + Remaining(s.pending) == Expected(s.accepted)
  {
    hide *;
    var more, rest := QueueFacts(s, n);
    var done, part, whole := Expected(s.accepted[..n]), Front(s.pending), Whole(s.accepted[n]);
    Compose(done, part, more, rest, whole);
  }

  lemma QueueFacts(s: State, n: nat) returns (more: seq<Input>, rest: seq<Input>)
    requires n + |s.pending| == |s.accepted| && QueueIs(s, n) && OffsetsFit(s.pending) && s.pending != []
    ensures Remaining(s.pending) == more + rest && Front(s.pending) + more == Whole(s.accepted[n])
    ensures Expected(s.accepted[..n]) + Whole(s.accepted[n]) + rest == Expected(s.accepted)
  {
    var p := s.pending[0];
    assert p.write == s.accepted[n];
    assert s.pending[0..] == s.pending;
    assert Front(s.pending) == Part(p.write, p.offset);
    PartGrows(p, |p.write.data|);
    hide *;
    more, rest := SliceInput(p, |p.write.data|), Remaining(s.pending[1..]);
    RemainingFrom(s.pending, 0);
    UntouchedRemain(s, n, 1);
    ExpectedNext(s.accepted, n);
  }

  lemma Compose(done: seq<Input>, part: seq<Input>, more: seq<Input>, rest: seq<Input>, whole: seq<Input>)
    requires part + more == whole
    ensures done + part + (more + rest) == done + whole + rest
  {
    Regroup(done, part, more, rest);
  }

  /** Every accepted write is answered exactly once, in order: success only after all of it and of the
      writes before it was fed, the dispose error otherwise; none is left unanswered after disposal. */
  lemma AnsweredInOrder(events: seq<Event>, i: nat)
    requires i < |Run(START, events).answers|
    ensures var s := Run(START, events);
      && s.answers[i].id == i && |s.answers| + |s.pending| == |s.accepted|
      && (s.answers[i].outcome.Disposed? ==> s.disposed)
      && (s.answers[i].outcome.Success? ==> Expected(s.accepted[..i + 1]) <= s.terminal)
  {
    Reachable(events);
    var s := Run(START, events);
    hide Run;
    if s.disposed {
      var n, offset :| Ended(s, n, offset);
      if i < n {
        ExpectedGrows(s.accepted, i + 1, n);
      }
    } else {
      ExpectedGrows(s.accepted, i + 1, |s.answers|);
    }
    hide Expected, Part;
  }

  lemma {:induction false} ExpectedGrows(writes: seq<Write>, m: nat, n: nat)
    requires m <= n <= |writes|
    ensures Expected(writes[..m]) <= Expected(writes[..n])
    decreases n - m
  {
    if m < n {
      ExpectedGrows(writes, m, n - 1);
      ExpectedNext(writes, n - 1);
    }
    hide Expected;
  }

  /** A frame is posted exactly while writes wait and the view is not disposed. */
  lemma FramePostedIff(events: seq<Event>)
    ensures var s := Run(START, events); s.posted == if s.pending != [] && !s.disposed then 1 else 0
  {
    Reachable(events);
    hide Run, Fed, Ended;
  }

  // ---- What is accepted, and how far a frame gets ----

  /** The writes made before the view is disposed, read off the events. */
  function Made(events: seq<Event>): seq<Write> {
    if events == [] || events[0].Dispose? then []
    else (if events[0].Enqueue? then [events[0].write] else []) + Made(events[1..])
  }

  lemma AcceptedStep(s: State, e: Event)
    ensures Step(s, e).accepted == if e.Enqueue? && !s.disposed then s.accepted + [e.write] else s.accepted
    ensures Step(s, e).disposed == (s.disposed || e.Dispose?)
  {
    if e.Frame? && s.posted > 0 && OffsetsFit(s.pending) {
      DrainedAccepts(s.(frameScheduled := false, posted := s.posted - 1), e.slices);
    }
    hide Drained, OffsetsFit;
  }

  lemma {:induction false} DrainedAccepts(s: State, n: nat)
    requires OffsetsFit(s.pending)
    ensures Drained(s, n).accepted == s.accepted && Drained(s, n).disposed == s.disposed
  {
    if n > 0 {
      DrainedAccepts(s, n - 1);
    }
    hide SliceInput;
  }

  predicate Disposes(events: seq<Event>) {
    events != [] && (events[0].Dispose? || Disposes(events[1..]))
  }

  lemma MadeFirst(events: seq<Event>)
    requires events != []
    ensures Made(events) ==
      if events[0].Dispose? then [] else if events[0].Enqueue? then [events[0].write] + Made(events[1..]) else Made(events[1..])
  {
    var more := Made(events[1..]);
    assert [] + more == more;
  }

  lemma {:induction false} AcceptedFrom(s: State, events: seq<Event>)
    ensures Run(s, events).accepted == s.accepted + (if s.disposed then [] else Made(events))
    decreases |events|
  {
    assert s.accepted + [] == s.accepted;
    if events != [] {
      MadeFirst(events);
      assert Run(s, events) == Run(Step(s, events[0]), events[1..]);
      hide *;
      AcceptedStep(s, events[0]);
      AcceptedFrom(Step(s, events[0]), events[1..]);
      var more := Made(events[1..]);
      if events[0].Enqueue? {
        assert s.accepted + [events[0].write] + more == s.accepted + ([events[0].write] + more);
      }
    }
  }

  lemma {:induction false} DisposedFrom(s: State, events: seq<Event>)
    ensures Run(s, events).disposed == (s.disposed || Disposes(events))
    decreases |events|
  {
    if events != [] {
      AcceptedStep(s, events[0]);
      hide Step;
      DisposedFrom(Step(s, events[0]), events[1..]);
    }
  }

  /** Every write made before disposal is accepted, in order, and none after it; only disposal disposes. */
  lemma AcceptedAreMade(events: seq<Event>)
    ensures Run(START, events).accepted == Made(events)
    ensures Run(START, events).disposed <==> Disposes(events)
  {
    AcceptedFrom(START, events);
    DisposedFrom(START, events);
    assert [] + Made(events) == Made(events);
    hide Run, Made;
  }

  /** How many slices a queue takes: one for every 8 KiB begun, and one for a write without bytes. */
  function Slices(pending: seq<Pending>): nat
    requires OffsetsFit(pending)
  {
    if pending == [] then 0 else
      var rest := |pending[0].write.data| - pending[0].offset;
      (if rest == 0 then 1 else (rest + 8191) / 8192) + Slices(pending[1..])
  }

  lemma SlicesFall(s: State)
    requires s.pending != [] && OffsetsFit(s.pending)
    ensures OffsetsFit(Sliced(s).pending) && Slices(Sliced(s).pending) == Slices(s.pending) - 1
  {
    var p := s.pending[0];
    var rest := |p.write.data| - p.offset;
    if SliceEnd(p) != |p.write.data| {
      assert Sliced(s).pending[1..] == s.pending[1..];
      assert (rest + 8191) / 8192 == 1 + (rest - 8192 + 8191) / 8192;
    }
    hide SliceInput;
  }

  lemma {:induction false} DrainedSlices(s: State, n: nat)
    requires OffsetsFit(s.pending)
    ensures Slices(Drained(s, n).pending) == if n <= Slices(s.pending) then Slices(s.pending) - n else 0
  {
    if n > 0 {
      DrainedSlices(s, n - 1);
      var before := Drained(s, n - 1);
      if before.pending != [] {
        SlicesFall(before);
        hide Sliced;
      }
    }
    hide OffsetsFit;
  }

  lemma SlicesOfNone(pending: seq<Pending>)
    requires OffsetsFit(pending)
    ensures Slices(pending) == 0 <==> pending == []
  {
    if pending != [] {
      var rest := |pending[0].write.data| - pending[0].offset;
      assert rest > 0 ==> (rest + 8191) / 8192 >= 1;
    }
  }

  /** A frame that gets through `n` slices leaves `n` fewer; when none are left every accepted write has been fed
      and answered with success, and otherwise a frame is posted for the rest. */
  lemma FrameGoesOn(events: seq<Event>, n: nat)
    requires Run(START, events).posted > 0
    ensures var s := Run(START, events); var s' := Step(s, Frame(n));
      && OffsetsFit(s.pending) && OffsetsFit(s'.pending) && !s'.disposed
      && Slices(s'.pending) == (if n <= Slices(s.pending) then Slices(s.pending) - n else 0)
      && s'.posted == (if n < Slices(s.pending) then 1 else 0)
      && (n >= Slices(s.pending) ==> s'.pending == [] && s'.terminal == Expected(Made(events)) && |s'.answers| == |Made(events)|)
  {
    var s := Run(START, events);
    Reachable(events);
    AcceptedAreMade(events);
    FrameKeeps(s, n);
    DrainedSlices(s.(frameScheduled := false, posted := s.posted - 1), n);
    DrainedAccepts(s.(frameScheduled := false, posted := s.posted - 1), n);
    var s' := FrameRun(s, n);
    SlicesOfNone(s'.pending);
    hide Drained, Slices, Run, Made;
    if s'.pending == [] {
      TerminalPlusRemaining(s');
      assert s'.terminal + [] == s'.terminal;
    }
    hide Fed, Ended, OffsetsFit;
  }
}
