/** The remote-desktop renderer: a decoder thread and a render thread share a surface slot, a
    pending-frame slot and a two-place command queue. */
module RdpRenderer {
  import opened Basics
  import opened UploadRegion

  // ---- One surface ----

  /** A surface as a value; `shown` is the picture last handed to the display. */
  datatype Surface = Surface(texture: Option<Texture>, uploaded: nat, presented: nat, shown: Option<Texture>)

  /** How acquiring a swapchain image ends, a retry after reconfiguring included. */
  datatype Acquire = Acquired | TimedOut | Refused

  const FRESH := Surface(None, 0, 0, None)

  predicate Fits(texture: Option<Texture>, f: Frame) {
    texture.Some? && texture.value.width == f.width && texture.value.height == f.height
  }

  function Ensured(texture: Option<Texture>, f: Frame): Texture {
    if Fits(texture, f) then texture.value else Blank(f.width, f.height)
  }

  function RegionFor(texture: Option<Texture>, f: Frame): Region {
    FromDirtyRect(f.width, f.height, f.dirty, !Fits(texture, f))
  }

  /** The surface after an upload, and whether it succeeded. */
  function Uploaded(s: Surface, sequence: nat, f: Frame): (Surface, bool) {
    if sequence <= s.uploaded || f.pixels == [] then (s, true) else
      var texture := Ensured(s.texture, f);
      if |f.pixels| < f.width * f.height * 4 then (s.(texture := Some(texture)), false) else
        (s.(texture := Some(Written(texture, RegionFor(s.texture, f), f.pixels)), uploaded := sequence), true)
  }

  function Presented(s: Surface, acquire: Acquire): (Surface, bool) {
    if s.uploaded <= s.presented then (s, true)
    else if s.texture.None? then (s, false)
    else match acquire
      case Acquired => (s.(shown := s.texture, presented := s.uploaded), true)
      case TimedOut => (s, true)
      case Refused => (s, false)
  }

  /** The surface holds the frames before `f`, and `f` is the next of them. */
  ghost predicate NextIn(frames: seq<Frame>, s: Surface, sequence: nat, f: Frame) {
    && Proper(frames) && Faithful(s, frames)
    && |frames| == sequence == s.uploaded + 1 && frames[sequence - 1] == f
  }

  class VulkanSurface {
    var frameTexture: Option<Texture>
    var lastUploaded: nat
    var lastPresented: nat
    var onDisplay: Option<Texture>

    function Value(): Surface
      reads this
    {
      Surface(frameTexture, lastUploaded, lastPresented, onDisplay)
    }

    constructor ()
      ensures Value() == FRESH
    {
      frameTexture, lastUploaded, lastPresented, onDisplay := None, 0, 0, None;
    }

    method EnsureFrameTexture(f: Frame) returns (created: bool)
      modifies this`frameTexture
      ensures created == !Fits(old(frameTexture), f)
      ensures frameTexture == Some(Ensured(old(frameTexture), f))
    {
      if frameTexture.Some? && frameTexture.value.width == f.width && frameTexture.value.height == f.height {
        return false;
      }
      frameTexture := Some(Blank(f.width, f.height));
      created := true;
    }

    method Upload(sequence: nat, f: Frame) returns (ok: bool)
      modifies this
      ensures (Value(), ok) == Uploaded(old(Value()), sequence, f)
      ensures lastPresented == old(lastPresented) && onDisplay == old(onDisplay)
      ensures sequence <= old(lastUploaded) || f.pixels == [] ==> ok && Value() == old(Value())
      ensures sequence > old(lastUploaded) && f.pixels != [] ==>
        && ok == (|f.pixels| >= f.width * f.height * 4) && Fits(frameTexture, f)
        && lastUploaded == if ok then sequence else old(lastUploaded)
      ensures forall frames :: NextIn(frames, old(Value()), sequence, f) ==> ok && Faithful(Value(), frames)
    {
      forall frames | NextIn(frames, Value(), sequence, f) ensures Faithful(Uploaded(Value(), sequence, f).0, frames) {
        NextFrameUploads(Value(), frames);
      }
      hide NextIn, Faithful, Written, FromDirtyRect;
      if sequence <= lastUploaded || f.pixels == [] {
        return true;
      }
      var created := EnsureFrameTexture(f);
      var region := FromDirtyRect(f.width, f.height, f.dirty, created);
      if |f.pixels| < f.width * f.height * 4 {
        return false;
      }
      frameTexture := Some(Written(frameTexture.value, region, f.pixels));
      lastUploaded := sequence;
      ok := true;
    }

    method Present(acquire: Acquire) returns (ok: bool)
      modifies this
      ensures (Value(), ok) == Presented(old(Value()), acquire)
      ensures frameTexture == old(frameTexture) && lastUploaded == old(lastUploaded)
      ensures ok <==> lastUploaded <= old(lastPresented) || (frameTexture.Some? && !acquire.Refused?)
      ensures var shows := lastUploaded > old(lastPresented) && frameTexture.Some? && acquire.Acquired?;
        && onDisplay == (if shows then frameTexture else old(onDisplay))
        && lastPresented == (if shows then lastUploaded else old(lastPresented))
      ensures forall frames :: Faithful(old(Value()), frames) ==> Faithful(Value(), frames)
    {
      forall frames | Faithful(Value(), frames) ensures Faithful(Presented(Value(), acquire).0, frames) {
        PresentKeeps(Value(), frames, acquire);
      }
      hide Faithful;
      if lastUploaded <= lastPresented {
        return true;
      }
      if frameTexture.None? {
        return false;
      }
      match acquire {
        case TimedOut => return true;
        case Refused => return false;
        case Acquired =>
      }
      onDisplay := frameTexture;
      lastPresented := lastUploaded;
      ok := true;
    }
  }

  /** A stale frame leaves the surface alone. */
  lemma StaleUploadIgnored(s: Surface, sequence: nat, f: Frame)
    requires sequence <= s.uploaded
    ensures Uploaded(s, sequence, f) == (s, true)
  {
  }

  // ---- What a surface should hold ----

  ghost predicate Proper(frames: seq<Frame>) {
    && (forall i :: 0 <= i < |frames| ==> Complete(frames[i]))
    && (forall i :: 0 < i < |frames| ==> ChangedInside(frames[i - 1], frames[i]))
  }

  /** The texture a surface holds after frame number `n`; there is none before the first. */
  function Picture(frames: seq<Frame>, n: nat): Option<Texture>
    requires n <= |frames|
  {
    if n == 0 then None else Some(FrameTexture(frames[n - 1]))
  }

  ghost predicate Faithful(s: Surface, frames: seq<Frame>) {
    && s.presented <= s.uploaded <= |frames|
    && s.texture == Picture(frames, s.uploaded)
    && s.shown == Picture(frames, s.presented)
  }

  lemma NextFrameUploads(s: Surface, frames: seq<Frame>)
    requires Proper(frames) && Faithful(s, frames) && s.uploaded == |frames| - 1
    ensures var (s', ok) := Uploaded(s, |frames|, frames[|frames| - 1]);
      ok && s'.uploaded == |frames| && s'.presented == s.presented && Faithful(s', frames)
  {
    var n := |frames|;
    var f := frames[n - 1];
    NonEmptyPixels(f);
    if Fits(s.texture, f) {
      PartialUploadSuffices(frames[n - 2], f);
    } else {
      FullUploadSuffices(f);
    }
    hide FrameTexture, Written, FromDirtyRect, Complete, ChangedInside, Blank;
  }

  lemma NonEmptyPixels(f: Frame)
    requires Complete(f)
    ensures |f.pixels| >= f.width * f.height * 4 && f.pixels != []
  {
    assert f.width * f.height >= 1;
  }

  /** A frame shown on a surface without a texture is uploaded whole, whatever came before. */
  lemma FirstUploadIsWhole(s: Surface, sequence: nat, f: Frame)
    requires Complete(f) && s.texture.None? && s.uploaded == 0 && sequence > 0
    ensures Uploaded(s, sequence, f) == (s.(texture := Some(FrameTexture(f)), uploaded := sequence), true)
  {
    NonEmptyPixels(f);
    FullUploadSuffices(f);
    hide FrameTexture, Written, FromDirtyRect, Complete, Blank;
  }

  /** Keeping only the needed bytes of a buffer keeps the picture. */
  function Trimmed(f: Frame): Frame
    requires |f.pixels| >= f.width * f.height * 4
  {
    f.(pixels := f.pixels[..f.width * f.height * 4])
  }

  lemma TrimmedPicture(f: Frame)
    requires Complete(f)
    ensures Complete(Trimmed(f)) && FrameTexture(Trimmed(f)) == FrameTexture(f)
    ensures |Trimmed(f).pixels| == f.width * f.height * 4
  {
    var g := Trimmed(f);
    forall y | 0 <= y < f.height ensures FrameTexture(g).rows[y] == FrameTexture(f).rows[y] {
      forall x | 0 <= x < f.width ensures FrameTexture(g).rows[y][x] == FrameTexture(f).rows[y][x] {
        PixelInFrame(f.width, f.height, x, y);
      }
    }
  }

  // ---- The two threads ----

  datatype Pending = Pending(sequence: nat, frame: Frame)

  datatype Command = Attach | Present | Detach | Stop

  const QUEUE_SLOTS: nat := 2

  /** Where the decoder is inside `render_frame`: a number is drawn, the frame is placed under the
      surface lock, the pending slot is looked at, and a Present is offered. */
  datatype Decoder = Idle | Numbered | Checking | Sending

  /** Where the render thread is; Creating holds no lock and no surface. */
  datatype Render = Ready | GotAttach | Creating | Attached | GotPresent | GotDetach | Clearing | Stopped

  /** `frames` is every frame rendered so far: frame number n is `frames[n - 1]`. */
  datatype State = State(frames: seq<Frame>, surface: Option<Surface>, pending: Option<Pending>,
    queue: seq<Command>, decoder: Decoder, render: Render)

  datatype Event =
    | Number(frame: Frame) | Place | Check | Offer
    | Send(command: Command) | Receive | Advance(created: bool, acquire: Acquire)

  const START := State([], None, None, [], Idle, Ready)

  function AfterPlacing(s: State): State
    requires s.frames != []
  {
    var n, f := |s.frames|, s.frames[|s.frames| - 1];
    if s.surface.Some? then
      var (surface, ok) := Uploaded(s.surface.value, n, f);
      s.(surface := Some(surface), decoder := if ok then Sending else Idle)
    else if |f.pixels| < f.width * f.height * 4 then s.(decoder := Idle)
    else s.(pending := Some(Pending(n, Trimmed(f))), decoder := Checking)
  }

  /** What `present_latest` does under the surface lock. */
  function PresentLatest(s: State, acquire: Acquire): State {
    if s.surface.None? then s
    else if s.pending.None? then s.(surface := Some(Presented(s.surface.value, acquire).0)) else
      var (surface, ok) := Uploaded(s.surface.value, s.pending.value.sequence, s.pending.value.frame);
      s.(pending := None, surface := Some(if ok then Presented(surface, acquire).0 else surface))
  }

  function AfterReceiving(c: Command): Render {
    match c
    case Attach => GotAttach
    case Present => GotPresent
    case Detach => GotDetach
    case Stop => Stopped
  }

  function Advanced(s: State, created: bool, acquire: Acquire): State {
    match s.render
    case GotAttach => s.(surface := None, render := Creating)
    case Creating => if created then s.(surface := Some(FRESH), render := Attached) else s.(render := Ready)
    case Attached => PresentLatest(s, acquire).(render := Ready)
    case GotPresent => PresentLatest(s, acquire).(render := Ready)
    case GotDetach => s.(surface := None, render := Clearing)
    case Clearing => s.(pending := None, render := Ready)
    case Ready => s
    case Stopped => s
  }

  function Step(s: State, e: Event): State {
    match e
    case Number(f) => if s.decoder.Idle? then s.(frames := s.frames + [f], decoder := Numbered) else s
    case Place => if s.decoder.Numbered? && s.frames != [] then AfterPlacing(s) else s
    case Check => if s.decoder.Checking? then s.(decoder := if s.pending.Some? then Sending else Idle) else s
    case Offer =>
      if !s.decoder.Sending? then s
      else if |s.queue| < QUEUE_SLOTS && !s.render.Stopped? then s.(queue := s.queue + [Present], decoder := Idle)
      else s.(decoder := Idle)
    case Send(c) => if |s.queue| < QUEUE_SLOTS && !s.render.Stopped? then s.(queue := s.queue + [c]) else s
    case Receive =>
      if s.render.Ready? && s.queue != [] then s.(queue := s.queue[1..], render := AfterReceiving(s.queue[0])) else s
    case Advance(created, acquire) => Advanced(s, created, acquire)
  }

  function Run(s: State, events: seq<Event>): State
    decreases |events|
  {
    if events == [] then s else Run(Step(s, events[0]), events[1..])
  }

  // ---- The texture refines the frame ----

  /** How many frames have been placed. */
  function Placed(s: State): int {
    if s.decoder.Numbered? then |s.frames| - 1 else |s.frames|
  }

  ghost predicate SurfaceInv(s: State) {
    s.surface.Some? ==>
      && Faithful(s.surface.value, s.frames)
      && (s.surface.value.uploaded == 0 || s.surface.value.uploaded == Placed(s))
      && !s.render.Creating? && !s.render.Clearing?
  }

  ghost predicate Holds(p: Pending, frames: seq<Frame>) {
    && 1 <= p.sequence <= |frames| && Complete(p.frame)
    && FrameTexture(p.frame) == FrameTexture(frames[p.sequence - 1])
  }

  ghost predicate PendingInv(s: State) {
    s.pending.Some? ==>
      && Holds(s.pending.value, s.frames)
      && s.pending.value.sequence <= Placed(s)
      && (s.surface.None? ==> s.pending.value.sequence == Placed(s))
      && (s.surface.Some? ==> s.render.Attached?)
      && (s.surface.Some? && s.surface.value.uploaded == 0 ==> s.pending.value.sequence == Placed(s))
  }

  ghost predicate Inv(s: State) {
    && (s.decoder.Numbered? ==> s.frames != [])
    && |s.queue| <= QUEUE_SLOTS
    && SurfaceInv(s) && PendingInv(s)
  }

  lemma ProperPrefix(frames: seq<Frame>, f: Frame)
    requires Proper(frames + [f])
    ensures Proper(frames)
  {
    hide Complete, ChangedInside;
    var more := frames + [f];
    forall i | 0 <= i < |frames| ensures Complete(frames[i]) {
      assert more[i] == frames[i];
    }
    forall i | 0 < i < |frames| ensures ChangedInside(frames[i - 1], frames[i]) {
      assert more[i - 1] == frames[i - 1] && more[i] == frames[i];
    }
  }

  lemma NumberKeeps(s: State, f: Frame)
    requires Inv(s)
    ensures Inv(Step(s, Number(f)))
  {
    hide Complete, FrameTexture;
  }

  lemma PlaceKeeps(s: State)
    requires Inv(s) && Proper(s.frames)
    ensures Inv(Step(s, Place))
  {
    if s.decoder.Numbered? {
      var n := |s.frames|;
      var f := s.frames[n - 1];
      NonEmptyPixels(f);
      TrimmedPicture(f);
      if s.surface.Some? {
        if s.surface.value.uploaded == n - 1 {
          NextFrameUploads(s.surface.value, s.frames);
        } else {
          FirstUploadIsWhole(s.surface.value, n, f);
        }
      }
    }
    hide Complete, FrameTexture, Uploaded, Proper, Trimmed;
  }

  lemma PresentKeeps(s: Surface, frames: seq<Frame>, acquire: Acquire)
    requires Faithful(s, frames)
    ensures var s' := Presented(s, acquire).0;
      && Faithful(s', frames) && s'.uploaded == s.uploaded
      && (acquire.Acquired? ==> s'.presented == s.uploaded)
  {
    hide FrameTexture;
  }

  lemma PresentLatestKeeps(s: State, acquire: Acquire)
    requires Inv(s) && (s.render.Attached? || s.render.GotPresent?)
    ensures var s' := PresentLatest(s, acquire);
      && Inv(s'.(render := Ready))
      && (s'.surface.Some? && acquire.Acquired? ==> s'.surface.value.presented == s'.surface.value.uploaded)
  {
    if s.surface.Some? {
      var v := s.surface.value;
      if s.pending.Some? {
        var p := s.pending.value;
        if v.uploaded == 0 {
          FirstUploadIsWhole(v, p.sequence, p.frame);
        } else {
          StaleUploadIgnored(v, p.sequence, p.frame);
        }
        hide Uploaded, Presented, Complete, FrameTexture;
        PresentKeeps(Uploaded(v, p.sequence, p.frame).0, s.frames, acquire);
      } else {
        PresentKeeps(v, s.frames, acquire);
      }
    }
    hide Uploaded, Presented, Complete, FrameTexture;
  }

  lemma AdvanceKeeps(s: State, created: bool, acquire: Acquire)
    requires Inv(s)
    ensures Inv(Step(s, Advance(created, acquire)))
  {
    if s.render.Attached? || s.render.GotPresent? {
      PresentLatestKeeps(s, acquire);
    }
    hide PresentLatest, Complete, FrameTexture;
  }

  lemma OtherKeeps(s: State, e: Event)
    requires Inv(s) && (e.Check? || e.Offer? || e.Send? || e.Receive?)
    ensures Inv(Step(s, e))
  {
    hide Complete, FrameTexture, Faithful;
  }

  lemma StepKeeps(s: State, e: Event)
    requires Inv(s) && Proper(Step(s, e).frames)
    ensures Inv(Step(s, e))
  {
    FramesOnlyGrow(s, e);
    hide Inv, Step, Proper;
    match e {
      case Number(f) => NumberKeeps(s, f);
      case Place => PlaceKeeps(s);
      case Advance(created, acquire) => AdvanceKeeps(s, created, acquire);
      case Check => OtherKeeps(s, e);
      case Offer => OtherKeeps(s, e);
      case Send(_) => OtherKeeps(s, e);
      case Receive => OtherKeeps(s, e);
    }
  }

  /** A step adds at most one frame, at the end. */
  lemma FramesOnlyGrow(s: State, e: Event)
    ensures Step(s, e).frames == s.frames || (e.Number? && Step(s, e).frames == s.frames + [e.frame])
    ensures Proper(Step(s, e).frames) ==> Proper(s.frames)
  {
    hide Uploaded, Presented;
    if e.Number? && s.decoder.Idle? && Proper(s.frames + [e.frame]) {
      ProperPrefix(s.frames, e.frame);
    }
    hide Proper;
  }

  lemma {:induction false} ProperThroughout(s: State, events: seq<Event>)
    requires Proper(Run(s, events).frames)
    ensures Proper(s.frames)
    decreases |events|
  {
    hide Step, Proper;
    if events != [] {
      ProperThroughout(Step(s, events[0]), events[1..]);
      FramesOnlyGrow(s, events[0]);
    }
  }

  lemma {:induction false} InvThroughout(s: State, events: seq<Event>)
    requires Inv(s) && Proper(Run(s, events).frames)
    ensures Inv(Run(s, events))
    decreases |events|
  {
    hide Step, Inv, Proper;
    if events != [] {
      ProperThroughout(Step(s, events[0]), events[1..]);
      StepKeeps(s, events[0]);
      InvThroughout(Step(s, events[0]), events[1..]);
    }
  }

  lemma StartInv()
    ensures Inv(START)
  {
  }

  /** Whatever the interleaving of both threads with attaches and detaches, the texture is pixel for
      pixel the whole frame numbered `uploaded`, and the display shows the one numbered `presented`. */
  lemma TextureIsFrame(events: seq<Event>)
    requires Proper(Run(START, events).frames)
    ensures var s := Run(START, events); s.surface.Some? ==>
      && var v := s.surface.value;
      && v.presented <= v.uploaded <= |s.frames|
      && v.texture == Picture(s.frames, v.uploaded)
      && v.shown == Picture(s.frames, v.presented)
      && (v.uploaded == 0 || v.uploaded == |s.frames| || (s.decoder.Numbered? && v.uploaded == |s.frames| - 1))
  {
    StartInv();
    InvThroughout(START, events);
    hide Run, Picture;
  }

  // ---- No frame is forgotten ----

  /** Swapchain images are always acquired and nobody stops the thread. */
  predicate Healthy(e: Event) {
    && (e.Send? ==> !e.command.Stop?)
    && (e.Advance? ==> e.acquire.Acquired?)
  }

  ghost predicate AllHealthy(events: seq<Event>) {
    forall i :: 0 <= i < |events| ==> Healthy(events[i])
  }

  ghost predicate Running(s: State) {
    !s.render.Stopped? && Stop !in s.queue
  }

  predicate Unshown(s: State) {
    s.surface.Some? && s.surface.value.uploaded > s.surface.value.presented
  }

  /** Something is queued or under way that will present the upload or discard its surface. */
  predicate Promised(s: State) {
    s.queue != [] || s.decoder.Sending? ||
    s.render.GotAttach? || s.render.Attached? || s.render.GotPresent? || s.render.GotDetach?
  }

  ghost predicate Remembered(s: State) {
    Running(s) && (Unshown(s) ==> Promised(s))
  }

  lemma DecoderRemembers(s: State, e: Event)
    requires Inv(s) && Remembered(s) && Proper(s.frames) && (e.Number? || e.Place? || e.Check? || e.Offer?)
    ensures Remembered(Step(s, e))
  {
    if e.Place? && s.decoder.Numbered? && s.surface.Some? {
      NonEmptyPixels(s.frames[|s.frames| - 1]);
    }
    hide Faithful, Proper, Complete, Holds, Written, FromDirtyRect;
  }

  lemma RenderRemembers(s: State, e: Event)
    requires Inv(s) && Remembered(s) && Healthy(e) && (e.Send? || e.Receive? || e.Advance?)
    ensures Remembered(Step(s, e))
  {
    if e.Advance? {
      if s.render.Attached? || s.render.GotPresent? {
        PresentLatestKeeps(s, e.acquire);
        PresentLatestFrame(s, e.acquire);
      }
      hide PresentLatest, Inv;
    } else {
      hide Inv;
    }
  }

  lemma PresentLatestFrame(s: State, acquire: Acquire)
    ensures PresentLatest(s, acquire).queue == s.queue && PresentLatest(s, acquire).decoder == s.decoder
  {
    hide Uploaded, Presented;
  }

  lemma {:induction false} RememberedThroughout(s: State, events: seq<Event>)
    requires Inv(s) && Remembered(s) && Proper(Run(s, events).frames) && AllHealthy(events)
    ensures Remembered(Run(s, events))
    decreases |events|
  {
    hide Step, Inv, Proper, Remembered, Healthy;
    if events != [] {
      var e := events[0];
      ProperThroughout(Step(s, e), events[1..]);
      FramesOnlyGrow(s, e);
      StepKeeps(s, e);
      if e.Number? || e.Place? || e.Check? || e.Offer? {
        DecoderRemembers(s, e);
      } else {
        RenderRemembers(s, e);
      }
      RememberedThroughout(Step(s, e), events[1..]);
    }
  }

  /** Although an offer may find the queue full and be dropped, an upload that has not been shown
      always has a command that will show it or discard its surface. */
  lemma NoForgottenFrame(events: seq<Event>)
    requires Proper(Run(START, events).frames) && AllHealthy(events)
    ensures var s := Run(START, events); Unshown(s) ==> Promised(s)
  {
    StartInv();
    RememberedThroughout(START, events);
    hide Run;
  }

  // ---- What each command does ----

  predicate Room(s: State) {
    |s.queue| < 2 && !s.render.Stopped?
  }

  /** The commands put into the queue, and those the render thread takes out of it. */
  function Posted(s: State, e: Event): seq<Command> {
    if e.Send? && Room(s) then [e.command] else if e.Offer? && s.decoder.Sending? && Room(s) then [Present] else []
  }

  function Taken(s: State, e: Event): seq<Command> {
    if e.Receive? && s.render.Ready? && s.queue != [] then [s.queue[0]] else []
  }

  ghost function AllPosted(s: State, events: seq<Event>): seq<Command>
    decreases |events|
  {
    if events == [] then [] else Posted(s, events[0]) + AllPosted(Step(s, events[0]), events[1..])
  }

  ghost function AllTaken(s: State, events: seq<Event>): seq<Command>
    decreases |events|
  {
    if events == [] then [] else Taken(s, events[0]) + AllTaken(Step(s, events[0]), events[1..])
  }

  /** Commands are handled in the order in which they were queued, none is lost and none made up. */
  lemma {:induction false} CommandsInOrder(s: State, events: seq<Event>)
    ensures AllTaken(s, events) + Run(s, events).queue == s.queue + AllPosted(s, events)
    decreases |events|
  {
    if events != [] {
      QueueStep(s, events[0]);
      hide Step, Posted, Taken;
      var s1 := Step(s, events[0]);
      CommandsInOrder(s1, events[1..]);
      Regroup(Taken(s, events[0]), AllTaken(s1, events[1..]), Run(s1, events[1..]).queue);
      Regroup(Taken(s, events[0]), s1.queue, AllPosted(s1, events[1..]));
      Regroup(s.queue, Posted(s, events[0]), AllPosted(s1, events[1..]));
    }
  }

  lemma Regroup(a: seq<Command>, b: seq<Command>, c: seq<Command>)
    ensures (a + b) + c == a + (b + c)
  {
  }

  lemma QueueStep(s: State, e: Event)
    ensures Taken(s, e) + Step(s, e).queue == s.queue + Posted(s, e)
  {
    hide Uploaded, Presented;
  }

  /** The frames that were rendered, read off the events: one at a time. */
  ghost function Rendered(s: State, events: seq<Event>): seq<Frame>
    decreases |events|
  {
    if events == [] then [] else
      (if events[0].Number? && s.decoder.Idle? then [events[0].frame] else []) + Rendered(Step(s, events[0]), events[1..])
  }

  lemma RenderedStep(s: State, e: Event)
    ensures Step(s, e).frames == s.frames + (if e.Number? && s.decoder.Idle? then [e.frame] else [])
    ensures e.Number? && s.decoder.Idle? ==> Step(s, e).decoder.Numbered?
    ensures Step(s, e).decoder.Sending? && !s.decoder.Sending? ==> s.surface.Some? || s.pending.Some?
  {
    hide Uploaded, Presented;
  }

  /** Every rendered frame gets the next number, and a Present is offered only for a surface or a waiting frame. */
  lemma {:induction false} FramesAreRendered(s: State, events: seq<Event>)
    ensures Run(s, events).frames == s.frames + Rendered(s, events)
    ensures forall e :: Step(s, e).decoder.Sending? && !s.decoder.Sending? ==> s.surface.Some? || s.pending.Some?
    decreases |events|
  {
    forall e ensures Step(s, e).decoder.Sending? && !s.decoder.Sending? ==> s.surface.Some? || s.pending.Some? {
      RenderedStep(s, e);
    }
    if events != [] {
      var s1 := Step(s, events[0]);
      RenderedStep(s, events[0]);
      hide Step;
      FramesAreRendered(s1, events[1..]);
      if events[0].Number? {
        var rest := Rendered(s1, events[1..]);
        assert s.frames + [events[0].frame] + rest == s.frames + ([events[0].frame] + rest);
      }
    }
  }

  /** The render thread takes the next command and carries it through. */
  function Handled(s: State, created: bool, acquire: Acquire): State {
    var e := Advance(created, acquire);
    Step(Step(Step(Step(s, Receive), e), e), e)
  }

  /** An attach that succeeds makes a surface, on which a waiting frame is shown at once; one that fails
      leaves none. Any other command leaves the surface it finds, but for a detach. */
  lemma CommandDoes(s: State, created: bool, acquire: Acquire)
    requires Inv(s) && s.render.Ready? && s.queue != []
    ensures var c, s' := s.queue[0], Handled(s, created, acquire);
      && s'.queue == s.queue[1..] && s'.frames == s.frames && s'.decoder == s.decoder
      && (s'.render == if c.Stop? then Stopped else Ready)
      && (c.Attach? && !created ==> s'.surface == None && s'.pending == s.pending)
      && (c.Attach? && created && s.pending.None? ==> s'.surface == Some(FRESH) && s'.pending == None)
      && (c.Attach? && created && s.pending.Some? ==>
          && s'.surface.Some? && s'.pending == None && s'.surface.value.uploaded == s.pending.value.sequence
          && s'.surface.value.texture == Some(FrameTexture(s.pending.value.frame)))
      && (c.Detach? ==> s'.surface == None && s'.pending == None)
      && (c.Stop? ==> s'.surface == s.surface && s'.pending == s.pending)
      && (c.Present? ==> (s'.surface.None? <==> s.surface.None?) && (s.surface.None? ==> s'.pending == s.pending))
      && ((c.Attach? || c.Present?) && acquire.Acquired? && s'.surface.Some? && s'.surface.value.uploaded > 0 ==>
          && s'.surface.value.presented == s'.surface.value.uploaded
          && s'.surface.value.shown == s'.surface.value.texture)
  {
    var s1 := Step(s, Receive);
    OtherKeeps(s, Receive);
    assert s1 == s.(queue := s.queue[1..], render := s1.render);
    var c := s.queue[0];
    hide Inv, PresentLatest, Uploaded, Presented, Complete, FrameTexture;
    if c.Attach? {
      AttachDoes(s1, created, acquire);
      hide Step;
    } else if c.Present? {
      PresentDoes(s1, acquire);
    } else {
      DetachDoes(s1, created, acquire);
      hide Step;
    }
  }

  lemma DetachDoes(s: State, created: bool, acquire: Acquire)
    requires s.render.GotDetach? || s.render.Stopped?
    ensures var e := Advance(created, acquire); var s' := Step(Step(Step(s, e), e), e);
      if s.render.Stopped? then s' == s else s' == s.(surface := None, pending := None, render := Ready)
  {
    hide PresentLatest;
  }

  lemma AttachDoes(s: State, created: bool, acquire: Acquire)
    requires Inv(s) && s.render.GotAttach?
    ensures var e := Advance(created, acquire); var s' := Step(Step(Step(s, e), e), e);
      && s'.queue == s.queue && s'.frames == s.frames && s'.decoder == s.decoder && s'.render == Ready
      && (!created ==> s'.surface == None && s'.pending == s.pending)
      && (created && s.pending.None? ==> s'.surface == Some(FRESH) && s'.pending == None)
      && (created && s.pending.Some? ==>
          && s'.surface.Some? && s'.pending == None && s'.surface.value.uploaded == s.pending.value.sequence
          && s'.surface.value.texture == Some(FrameTexture(s.pending.value.frame)))
      && (acquire.Acquired? && s'.surface.Some? && s'.surface.value.uploaded > 0 ==>
          && s'.surface.value.presented == s'.surface.value.uploaded
          && s'.surface.value.shown == s'.surface.value.texture)
  {
    if created && s.pending.Some? {
      FirstUploadIsWhole(FRESH, s.pending.value.sequence, s.pending.value.frame);
    }
    hide Uploaded, Complete, FrameTexture, Faithful;
  }

  lemma PresentDoes(s: State, acquire: Acquire)
    requires Inv(s) && s.render.GotPresent?
    ensures var s' := PresentLatest(s, acquire).(render := Ready);
      && (forall created :: Step(s, Advance(created, acquire)) == s' == Step(s', Advance(created, acquire)))
      && s'.queue == s.queue && s'.frames == s.frames && s'.decoder == s.decoder
      && (s'.surface.None? <==> s.surface.None?) && (s.surface.None? ==> s'.pending == s.pending)
      && (acquire.Acquired? && s'.surface.Some? && s'.surface.value.uploaded > 0 ==>
          && s'.surface.value.presented == s'.surface.value.uploaded
          && s'.surface.value.shown == s'.surface.value.texture)
  {
    PresentLatestKeeps(s, acquire);
    PresentLatestFrame(s, acquire);
    hide Uploaded, Presented, Complete, FrameTexture;
  }

  lemma StoppedForGood(s: State, e: Event)
    requires s.render.Stopped?
    ensures Step(s, e).render.Stopped? && Step(s, e).queue == s.queue
  {
    hide Uploaded;
  }

  /** A complete frame is placed, and a Present offered for it, by the decoder's next three actions. */
  lemma FrameIsAnnounced(s: State)
    requires Inv(s) && Proper(s.frames) && s.decoder.Numbered?
    ensures var s' := Step(Step(Step(s, Place), Check), Offer);
      && s'.decoder.Idle? && s'.render == s.render && s'.frames == s.frames
      && s'.queue == (if Room(s) then s.queue + [Present] else s.queue)
      && (s.surface.Some? ==> s'.surface.Some? && s'.surface.value.uploaded == |s.frames| && s'.pending == s.pending)
      && (s.surface.None? ==> s'.surface.None? && s'.pending.Some? && s'.pending.value.sequence == |s.frames|)
  {
    var n := |s.frames|;
    NonEmptyPixels(s.frames[n - 1]);
    if s.surface.Some? {
      if s.surface.value.uploaded == n - 1 {
        NextFrameUploads(s.surface.value, s.frames);
      } else {
        FirstUploadIsWhole(s.surface.value, n, s.frames[n - 1]);
      }
    }
    hide Complete, FrameTexture, Uploaded, Proper, Trimmed, Faithful;
  }

  /** A frame whose buffer is too short is refused: nothing waits for it, nothing is announced, and no
      number is recorded; a surface may have got a blank texture for its size. */
  lemma ShortFrameRefused(s: State)
    requires s.decoder.Numbered? && s.frames != []
    ensures var f, s' := s.frames[|s.frames| - 1], Step(s, Place);
      |f.pixels| < f.width * f.height * 4 && (s.surface.None? || (f.pixels != [] && s.surface.value.uploaded < |s.frames|)) ==>
        && s'.decoder.Idle? && s'.pending == s.pending && s'.queue == s.queue && s'.render == s.render
        && (s'.surface.None? <==> s.surface.None?)
        && (s.surface.Some? ==>
            && s'.surface.value.uploaded == s.surface.value.uploaded && s'.surface.value.presented == s.surface.value.presented
            && s'.surface.value.shown == s.surface.value.shown
            && s'.surface.value.texture ==
               if Fits(s.surface.value.texture, f) then s.surface.value.texture else Some(Blank(f.width, f.height)))
  {
    hide Blank;
  }

  // ---- Which frame is kept ----

  /** A detach drops a waiting frame, and a new attach or a detach drops what a surface holds. */
  predicate Discards(s: State, e: Event) {
    e.Advance? && (s.render.Clearing? || ((s.render.GotAttach? || s.render.GotDetach?) && s.surface.Some?))
  }

  /** The number of the newest frame placed and not discarded since, read off the events; 0 when none. */
  ghost function Newest(s: State, events: seq<Event>, before: nat): nat
    decreases |events|
  {
    if events == [] then before else Newest(Step(s, events[0]), events[1..], NewestAfter(s, events[0], before))
  }

  ghost function NewestAfter(s: State, e: Event, before: nat): nat {
    if e.Place? && s.decoder.Numbered? then |s.frames| else if Discards(s, e) then 0 else before
  }

  /** That frame is on the surface, or waits for one. */
  ghost predicate Keeps(s: State, n: nat) {
    var uploaded := if s.surface.Some? then s.surface.value.uploaded else 0;
    n == if uploaded == 0 && s.pending.Some? then s.pending.value.sequence else uploaded
  }

  lemma PlaceNewest(s: State)
    requires Inv(s) && Proper(s.frames) && s.decoder.Numbered?
    ensures Keeps(Step(s, Place), |s.frames|)
  {
    var n := |s.frames|;
    NonEmptyPixels(s.frames[n - 1]);
    if s.surface.Some? {
      if s.surface.value.uploaded == n - 1 {
        NextFrameUploads(s.surface.value, s.frames);
      } else {
        FirstUploadIsWhole(s.surface.value, n, s.frames[n - 1]);
      }
    }
    hide Complete, FrameTexture, Uploaded, Proper, Trimmed, Faithful;
  }

  lemma PresentNewest(s: State, acquire: Acquire, n: nat)
    requires Inv(s) && Keeps(s, n) && (s.render.Attached? || s.render.GotPresent?)
    ensures var s' := PresentLatest(s, acquire);
      && (s'.surface.Some? <==> s.surface.Some?)
      && (s.surface.Some? ==> s'.surface.value.uploaded == n && s'.pending.None?)
      && (s.surface.None? ==> s' == s)
  {
    if s.surface.Some? {
      var v := s.surface.value;
      if s.pending.Some? {
        var p := s.pending.value;
        if v.uploaded == 0 {
          FirstUploadIsWhole(v, p.sequence, p.frame);
        } else {
          StaleUploadIgnored(v, p.sequence, p.frame);
        }
      }
      hide Uploaded, Complete, FrameTexture, Faithful;
    }
  }

  lemma KeepsStep(s: State, e: Event, n: nat)
    requires Inv(s) && Proper(s.frames) && Keeps(s, n)
    ensures Keeps(Step(s, e), NewestAfter(s, e, n))
  {
    if e.Place? && s.decoder.Numbered? {
      PlaceNewest(s);
    } else if e.Advance? && (s.render.Attached? || s.render.GotPresent?) {
      PresentNewest(s, e.acquire, n);
      hide PresentLatest;
    }
    hide Complete, FrameTexture, Faithful, Proper, Uploaded, Presented;
  }

  lemma {:induction false} KeepsThroughout(s: State, events: seq<Event>, n: nat)
    requires Inv(s) && Keeps(s, n) && Proper(Run(s, events).frames)
    ensures Keeps(Run(s, events), Newest(s, events, n))
    decreases |events|
  {
    hide Step, Inv, Proper, Keeps, NewestAfter;
    if events != [] {
      ProperThroughout(Step(s, events[0]), events[1..]);
      FramesOnlyGrow(s, events[0]);
      StepKeeps(s, events[0]);
      KeepsStep(s, events[0], n);
      KeepsThroughout(Step(s, events[0]), events[1..], NewestAfter(s, events[0], n));
    }
  }

  /** At rest a surface shows exactly the newest frame that has been placed and not discarded since,
      whether it was placed before the surface was attached or after. */
  lemma RestShowsNewest(events: seq<Event>)
    requires Proper(Run(START, events).frames) && AllHealthy(events)
    ensures var s := Run(START, events); var n := Newest(START, events, 0);
      s.queue == [] && s.decoder.Idle? && s.render.Ready? && s.surface.Some? ==>
        && s.surface.value.uploaded == s.surface.value.presented == n
        && (n == 0 || n == |s.frames|)
        && s.surface.value.shown == if n == 0 then None else Some(FrameTexture(s.frames[|s.frames| - 1]))
  {
    StartInv();
    TextureIsFrame(events);
    NoForgottenFrame(events);
    InvThroughout(START, events);
    KeepsThroughout(START, events, 0);
    hide Run, FrameTexture, Proper, Newest;
  }

  /** A complete frame placed without a surface waits under its own number with its own picture. */
  lemma PlacedIsPending(events: seq<Event>)
    requires Proper(Run(START, events).frames)
    ensures var s := Run(START, events); var s' := Step(s, Place);
      s.decoder.Numbered? && s.surface.None? ==>
        && s'.pending.Some? && s'.surface.None? && s'.decoder.Checking? && s.frames != []
        && s'.pending.value.sequence == |s.frames|
        && FrameTexture(s'.pending.value.frame) == FrameTexture(s.frames[|s.frames| - 1])
  {
    StartInv();
    InvThroughout(START, events);
    var s := Run(START, events);
    hide Run, FrameTexture;
    if s.decoder.Numbered? {
      NonEmptyPixels(s.frames[|s.frames| - 1]);
      TrimmedPicture(s.frames[|s.frames| - 1]);
    }
    hide Complete, Trimmed;
  }

  /** A waiting frame leaves its slot only by a detach, for a newer frame, or onto the surface, which then
      has it, or a newer one, on display. */
  lemma PendingLeaves(events: seq<Event>, e: Event)
    requires Healthy(e) && Proper(Step(Run(START, events), e).frames)
    ensures var s := Run(START, events); var s' := Step(s, e);
      s.pending.Some? && s'.pending != s.pending ==>
        || (e.Advance? && s.render.Clearing?)
        || (e.Place? && s'.pending.Some? && s'.pending.value.sequence > s.pending.value.sequence)
        || (&& s'.surface.Some? && s'.surface.value.uploaded == s'.surface.value.presented >= s.pending.value.sequence
            && s'.surface.value.presented <= |s'.frames|
            && s'.surface.value.shown == Picture(s'.frames, s'.surface.value.presented))
  {
    var s := Run(START, events);
    FramesOnlyGrow(s, e);
    StartInv();
    InvThroughout(START, events);
    hide Run, FrameTexture;
    PendingLeavesStep(s, e);
    hide *;
  }

  lemma PendingLeavesStep(s: State, e: Event)
    requires Healthy(e) && Inv(s) && Proper(s.frames)
    ensures var s' := Step(s, e);
      s.pending.Some? && s'.pending != s.pending ==>
        || (e.Advance? && s.render.Clearing?)
        || (e.Place? && s'.pending.Some? && s'.pending.value.sequence > s.pending.value.sequence)
        || (&& s'.surface.Some? && s'.surface.value.uploaded == s'.surface.value.presented >= s.pending.value.sequence
            && s'.surface.value.presented <= |s'.frames|
            && s'.surface.value.shown == Picture(s'.frames, s'.surface.value.presented))
  {
    if e.Advance? && (s.render.Attached? || s.render.GotPresent?) {
      PresentLatestKeeps(s, e.acquire);
      if s.pending.Some? {
        PresentedReaches(s, e.acquire);
      }
      hide PresentLatest, Picture;
    } else {
      hide Picture, Uploaded, PresentLatest, Complete, FrameTexture, Faithful, Proper, Trimmed;
    }
  }

  lemma PresentedReaches(s: State, acquire: Acquire)
    requires Inv(s) && s.pending.Some?
    ensures var s' := PresentLatest(s, acquire);
      && s'.frames == s.frames
      && (s'.surface.Some? ==> s'.surface.value.uploaded >= s.pending.value.sequence)
      && (s'.surface.None? ==> s' == s)
  {
    if s.surface.Some? {
      var v, p := s.surface.value, s.pending.value;
      if v.uploaded == 0 {
        FirstUploadIsWhole(v, p.sequence, p.frame);
      } else {
        StaleUploadIgnored(v, p.sequence, p.frame);
      }
    }
    hide Uploaded, Complete, FrameTexture, Faithful;
  }

  // ---- Why full-length buffers matter ----

  /** The clipped dirty rectangle is the whole frame. */
  predicate DirtyIsAll(width: u16, height: u16, dirty: Rect) {
    var r := FromDirtyRect(width, height, dirty, false);
    r.x == 0 && r.y == 0 && r.width == width && r.height == height
  }

  /** The texture after a frame and the next one. */
  function AfterBoth(s: Surface, sequence: nat, first: Frame, second: Frame): Option<Texture> {
    Uploaded(Uploaded(s, sequence, first).0, sequence + 1, second).0.texture
  }

  /** Whatever complete content of the same size follows a frame, the texture then shows it. */
  ghost predicate RightAfter(s: Surface, sequence: nat, first: Frame, dirty: Rect) {
    forall next: Frame :: Complete(next) && next.width == first.width && next.height == first.height && next.dirty == dirty ==>
      AfterBoth(s, sequence, first, next) == Some(FrameTexture(next))
  }

  /** After a short buffer that made the texture, the next frame comes out right for every content exactly
      when its dirty rectangle is the whole frame. */
  lemma ShortBufferSpoilsIff(s: Surface, sequence: nat, short: Frame, dirty: Rect)
    requires sequence > s.uploaded && !Fits(s.texture, short) && short.width * short.height * 4 <= U32_LIMIT
    requires short.pixels != [] && |short.pixels| < short.width * short.height * 4
    ensures RightAfter(s, sequence, short, dirty) <==> DirtyIsAll(short.width, short.height, dirty)
  {
    hide DirtyIsAll, AfterBoth, Complete, FrameTexture;
    if DirtyIsAll(short.width, short.height, dirty) {
      forall next: Frame | Complete(next) && next.width == short.width && next.height == short.height && next.dirty == dirty
        ensures AfterBoth(s, sequence, short, next) == Some(FrameTexture(next))
      {
        ShortThenNext(s, sequence, short, next);
        WholeDirtySuffices(next);
      }
    } else {
      var next := Painted(short.width, short.height, dirty);
      PaintedIsComplete(short.width, short.height, dirty);
      ShortThenNext(s, sequence, short, next);
      PaintedIsSpoiled(short.width, short.height, dirty);
      assert AfterBoth(s, sequence, short, next) != Some(FrameTexture(next));
    }
  }

  lemma ShortThenNext(s: Surface, sequence: nat, short: Frame, next: Frame)
    requires sequence > s.uploaded && !Fits(s.texture, short)
    requires short.pixels != [] && |short.pixels| < short.width * short.height * 4
    requires Complete(next) && next.width == short.width && next.height == short.height
    ensures AfterBoth(s, sequence, short, next) ==
      Some(Written(Blank(next.width, next.height), FromDirtyRect(next.width, next.height, next.dirty, false), next.pixels))
  {
    NonEmptyPixels(next);
    hide Written, FromDirtyRect, Blank, Complete;
    BlankFits(next);
  }

  lemma BlankFits(f: Frame)
    ensures Fits(Some(Blank(f.width, f.height)), f)
  {
  }

  lemma WholeDirtySuffices(f: Frame)
    requires Complete(f) && DirtyIsAll(f.width, f.height, f.dirty)
    ensures Written(Blank(f.width, f.height), FromDirtyRect(f.width, f.height, f.dirty, false), f.pixels) == FrameTexture(f)
  {
    WrittenIsFrame(Blank(f.width, f.height), f, false);
    hide FromDirtyRect, Written, FrameTexture;
  }

  /** A frame without a single blank byte. */
  function Painted(width: u16, height: u16, dirty: Rect): Frame {
    Frame(width, height, dirty, seq(width * height * 4, _ => 1))
  }

  lemma PaintedIsComplete(width: u16, height: u16, dirty: Rect)
    requires width >= 1 && height >= 1 && width * height * 4 <= U32_LIMIT
    ensures Complete(Painted(width, height, dirty))
  {
  }

  /** A pixel outside the region stays blank. */
  lemma PaintedIsSpoiled(width: u16, height: u16, dirty: Rect)
    requires width >= 1 && height >= 1 && width * height * 4 <= U32_LIMIT && !DirtyIsAll(width, height, dirty)
    ensures var f := Painted(width, height, dirty);
      Written(Blank(width, height), FromDirtyRect(width, height, dirty, false), f.pixels) != FrameTexture(f)
  {
    var f := Painted(width, height, dirty);
    var x, y := Uncovered(width, height, dirty);
    PaintedIsComplete(width, height, dirty);
    PixelWritten(Blank(width, height), f, false, x, y);
    PaintedPixel(width, height, dirty, x, y);
    hide FromDirtyRect, Written, FrameTexture, Painted;
  }

  lemma PaintedPixel(width: u16, height: u16, dirty: Rect, x: nat, y: nat)
    requires x < width && y < height
    ensures var f := Painted(width, height, dirty); FrameTexture(f).rows[y][x] == Pixel(1, 1, 1, 1)
  {
    PixelInFrame(width, height, x, y);
  }

  lemma Uncovered(width: u16, height: u16, dirty: Rect) returns (x: nat, y: nat)
    requires width >= 1 && height >= 1 && !DirtyIsAll(width, height, dirty)
    ensures x < width && y < height && !Covers(FromDirtyRect(width, height, dirty, false), x, y)
  {
    var r := FromDirtyRect(width, height, dirty, false);
    RegionFits(width, height, dirty, false);
    hide FromDirtyRect;
    x := if r.x > 0 then 0 else width - 1;
    y := if r.y > 0 then 0 else height - 1;
  }

  /** A short buffer still creates the texture, so the next complete frame of that size is uploaded
      partially over blank pixels. */
  lemma ShortBufferSpoilsNextFrame()
    ensures var p := 9 as byte;
      var short, whole := Frame(2, 1, Rect(0, 0, 1, 0), [p, p, p, p]), Frame(2, 1, Rect(0, 0, 0, 0), [p, p, p, p, p, p, p, p]);
      var (first, ok1) := Uploaded(FRESH, 1, short);
      var (second, ok2) := Uploaded(first, 2, whole);
      Complete(whole) && !ok1 && ok2 && second.uploaded == 2 && second.texture != Some(FrameTexture(whole))
  {
    var p := 9 as byte;
    var short, whole := Frame(2, 1, Rect(0, 0, 1, 0), [p, p, p, p]), Frame(2, 1, Rect(0, 0, 0, 0), [p, p, p, p, p, p, p, p]);
    var first := Uploaded(FRESH, 1, short).0;
    var second := Uploaded(first, 2, whole).0;
    assert second.texture.value.rows[0][1] == Pixel(0, 0, 0, 0);
    assert FrameTexture(whole).rows[0][1] == Pixel(p, p, p, p);
  }
}
