/** The bounded output buffer of an SSH session: one channel task appends, any number of reads
    drain, and wakeups travel over two `Notify` objects. */
module OutputBuffer {
  import opened Basics

  const MAX_BUFFER_BYTES: nat := 2 * 1024 * 1024
  const MAX_READ_BYTES: nat := 256 * 1024
  const READ_BATCH_BYTES: nat := 64 * 1024

  datatype Queues = Queues(stdout: seq<byte>, stderr: seq<byte>)

  function Len(q: Queues): nat {
    |q.stdout| + |q.stderr|
  }

  function Free(q: Queues): nat {
    if Len(q) <= MAX_BUFFER_BYTES then MAX_BUFFER_BYTES - Len(q) else 0
  }

  function Push(q: Queues, data: seq<byte>, stderr: bool): Queues {
    if stderr then q.(stderr := q.stderr + data) else q.(stdout := q.stdout + data)
  }

  function ClampedLimit(maxBytes: nat): nat {
    if maxBytes < 1 then 1 else Min(maxBytes, MAX_READ_BYTES)
  }

  function Taken(queue: seq<byte>, limit: nat): seq<byte> {
    queue[..Min(|queue|, limit)]
  }

  function Left(queue: seq<byte>, limit: nat): seq<byte> {
    queue[Min(|queue|, limit)..]
  }

  /** What a drain hands out: standard output first, then standard error up to the same limit. */
  function Drained(q: Queues, limit: nat): Queues {
    var out := Taken(q.stdout, limit);
    Queues(out, Taken(q.stderr, limit - |out|))
  }

  function Kept(q: Queues, limit: nat): Queues {
    var out := Taken(q.stdout, limit);
    Queues(Left(q.stdout, limit), Left(q.stderr, limit - |out|))
  }

  lemma DrainConserves(q: Queues, limit: nat)
    ensures Drained(q, limit).stdout + Kept(q, limit).stdout == q.stdout
    ensures Drained(q, limit).stderr + Kept(q, limit).stderr == q.stderr
    ensures Drained(q, limit).stderr != [] ==> Kept(q, limit).stdout == []
    ensures Len(Drained(q, limit)) == Min(Len(q), limit)
    ensures Len(Drained(q, limit)) + Len(Kept(q, limit)) == Len(q)
  {
  }

  /** The two queues, changed in place under the session's lock. */
  class Buffer {
    var stdout: seq<byte>
    var stderr: seq<byte>

    ghost predicate Valid()
      reads this
    {
      |stdout| + |stderr| <= MAX_BUFFER_BYTES
    }

    function Content(): Queues
      reads this
    {
      Queues(stdout, stderr)
    }

    constructor ()
      ensures Valid() && Content() == Queues([], [])
    {
      stdout, stderr := [], [];
    }

    /** One locked section of the append loop: takes as much of `data[offset..]` as fits. */
    method Extend(data: seq<byte>, offset: nat, intoStderr: bool) returns (end: nat)
      requires Valid() && offset <= |data|
      modifies this
      ensures Valid()
      ensures end == offset + Min(old(Free(Content())), |data| - offset)
      ensures Content() == Push(old(Content()), data[offset..end], intoStderr)
      ensures stdout == old(stdout) + (if intoStderr then [] else data[offset..end])
      ensures stderr == old(stderr) + (if intoStderr then data[offset..end] else [])
      ensures end == |data| || |stdout| + |stderr| == MAX_BUFFER_BYTES
    {
      var available := MAX_BUFFER_BYTES - (|stdout| + |stderr|);
      end := Min(offset + available, |data|);
      if intoStderr {
        stderr := stderr + data[offset..end];
      } else {
        stdout := stdout + data[offset..end];
      }
    }

    /** The batch-ready branch of a read. */
    method Drain(limit: nat) returns (out: seq<byte>, err: seq<byte>)
      requires Valid() && limit >= 1
      modifies this
      ensures Valid()
      ensures Queues(out, err) == Drained(old(Content()), limit) && Content() == Kept(old(Content()), limit)
      ensures out + stdout == old(stdout) && err + stderr == old(stderr) && (err != [] ==> stdout == [])
      ensures |out| + |err| == Min(old(Len(Content())), limit)
      ensures old(Len(Content())) > 0 ==> Len(Content()) < old(Len(Content()))
    {
      DrainConserves(Content(), limit);
      var n := Min(|stdout|, limit);
      out, stdout := stdout[..n], stdout[n..];
      var m := Min(|stderr|, limit - |out|);
      err, stderr := stderr[..m], stderr[m..];
      assert Queues(out, err) == Drained(old(Content()), limit) && Content() == Kept(old(Content()), limit);
      hide Drained, Kept;
    }
  }

  // ---- The interleaved protocol ----

  /** A message being appended: `data[offset..]` is still to be accepted. */
  datatype Message = Message(data: seq<byte>, stderr: bool, offset: nat)

  datatype Producer =
    | Idle
    | AtCheck(m: Message)                  // loop head: bytes left? session closed?
    | Checked(m: Message)                  // about to create the `notified` future
    | Subscribed(m: Message, gen: nat)     // about to lock
    | Waiting(m: Message, gen: nat)        // the buffer was full
    | Notifying(m: Message)                // unlocked, about to wake the reads
    | Ended(m: Message)                    // left the loop with `m` undelivered

  datatype Reader =
    | Starting(limit: nat, deadline: bool)
    | Listening(limit: nat, deadline: bool, gen: nat)                   // about to lock
    | Sleeping(limit: nat, deadline: bool, gen: nat, buffered: bool)
    | Releasing(limit: nat, result: Queues)                             // drained and unlocked, about to wake the producer
    | Returned(limit: nat, result: Queues)

  datatype Closer = Storing | WakingReads | WakingProducer | Closed

  datatype State = State(
    queues: Queues, closed: bool, interactive: bool,
    dataGen: nat, spaceGen: nat,              // notify_waiters calls so far
    producer: Producer, readers: map<nat, Reader>, closers: map<nat, Closer>,
    received: Queues,                         // everything the channel handed over
    accepted: Queues,                         // everything `append_output` has queued
    delivered: Queues,                        // everything reads have taken
    slipped: bool)                            // a closer woke the producer between its check and its subscription

  datatype Event =
    | Receive(data: seq<byte>, stderr: bool)
    | EndOfStream
    | Produce                                  // the producer's next action
    | StartRead(id: nat, maxBytes: nat)
    | Read(id: nat, expired: bool)             // a read's next action; `expired`: its deadline has passed
    | Timeout(id: nat)
    | Write                                    // input was sent: the next output is interactive
    | StartClose(id: nat)
    | Close(id: nat)                           // a closer's next action

  function Rest(m: Message): seq<byte> {
    if m.offset <= |m.data| then m.data[m.offset..] else []
  }

  function Accept(s: State): State
    requires s.producer.Subscribed?
  {
    var m := s.producer.m;
    var part := Taken(Rest(m), Free(s.queues));
    s.(queues := Push(s.queues, part, m.stderr), accepted := Push(s.accepted, part, m.stderr),
       producer := Notifying(m.(offset := m.offset + |part|)))
  }

  function ProduceStep(s: State): State {
    match s.producer
    case AtCheck(m) =>
      if m.offset >= |m.data| then s.(producer := Idle)
      else if s.closed then s.(producer := Ended(m))
      else s.(producer := Checked(m), slipped := false)
    case Checked(m) => s.(producer := Subscribed(m, s.spaceGen))
    case Subscribed(m, gen) => if Free(s.queues) == 0 then s.(producer := Waiting(m, gen)) else Accept(s)
    case Waiting(m, gen) => s.(producer := AtCheck(m))
    case Notifying(m) => s.(dataGen := s.dataGen + 1, producer := AtCheck(m))
    case _ => s
  }

  predicate BatchReady(s: State, r: Reader, expired: bool)
    requires r.Listening?
  {
    || (Len(s.queues) > 0 && s.interactive)
    || Len(s.queues) >= Min(r.limit, READ_BATCH_BYTES)
    || s.closed
    || (r.deadline && expired)
  }

  function LockedRead(s: State, id: nat, expired: bool): State
    requires id in s.readers && s.readers[id].Listening?
  {
    var r := s.readers[id];
    if Len(s.queues) > 0 || s.closed then
      var interactive := if Len(s.queues) > 0 then false else s.interactive;
      if BatchReady(s, r, expired) then
        var result := Drained(s.queues, r.limit);
        s.(queues := Kept(s.queues, r.limit), interactive := interactive,
           delivered := Queues(s.delivered.stdout + result.stdout, s.delivered.stderr + result.stderr),
           readers := s.readers[id := Releasing(r.limit, result)])
      else
        s.(interactive := interactive, readers := s.readers[id := Sleeping(r.limit, true, r.gen, true)])
    else
      s.(readers := s.readers[id := Sleeping(r.limit, r.deadline, r.gen, false)])
  }

  function ReadStep(s: State, id: nat, expired: bool): State
    requires id in s.readers
  {
    match s.readers[id]
    case Starting(limit, deadline) => s.(readers := s.readers[id := Listening(limit, deadline, s.dataGen)])
    case Listening(_, _, _) => LockedRead(s, id, expired)
    case Sleeping(limit, deadline, _, _) => s.(readers := s.readers[id := Starting(limit, deadline)])
    case Releasing(limit, result) => s.(spaceGen := s.spaceGen + 1, readers := s.readers[id := Returned(limit, result)])
    case Returned(_, _) => s
  }

  function CloseStep(s: State, id: nat): State
    requires id in s.closers
  {
    match s.closers[id]
    case Storing => s.(closed := true, closers := s.closers[id := WakingReads])
    case WakingReads => s.(dataGen := s.dataGen + 1, closers := s.closers[id := WakingProducer])
    case WakingProducer =>
      s.(spaceGen := s.spaceGen + 1, closers := s.closers[id := Closed], slipped := s.slipped || s.producer.Checked?)
    case Closed => s
  }

  predicate Enabled(s: State, e: Event) {
    match e
    case Receive(_, _) => s.producer.Idle?
    case EndOfStream => s.producer.Idle?
    case Produce =>
      && !s.producer.Idle? && !s.producer.Ended?
      && (s.producer.Waiting? ==> s.spaceGen > s.producer.gen)
    case StartRead(id, _) => id !in s.readers
    case Read(id, _) =>
      && id in s.readers && !s.readers[id].Returned?
      && (s.readers[id].Sleeping? ==> s.dataGen > s.readers[id].gen)
    case Timeout(id) => id in s.readers && s.readers[id].Sleeping?
    case Write => true
    case StartClose(id) => id !in s.closers
    case Close(id) => id in s.closers && !s.closers[id].Closed?
  }

  function Step(s: State, e: Event): State
    requires Enabled(s, e)
  {
    match e
    case Receive(data, stderr) =>
      s.(received := Push(s.received, data, stderr), producer := AtCheck(Message(data, stderr, 0)))
    case EndOfStream => s.(producer := Ended(Message([], false, 0)))
    case Produce => ProduceStep(s)
    case StartRead(id, maxBytes) => s.(readers := s.readers[id := Starting(ClampedLimit(maxBytes), false)])
    case Read(id, expired) => ReadStep(s, id, expired)
    case Timeout(id) =>
      var r := s.readers[id];
      s.(readers := s.readers[id := if r.buffered then Starting(r.limit, r.deadline) else Returned(r.limit, Queues([], []))])
    case Write => s.(interactive := true)
    case StartClose(id) => s.(closers := s.closers[id := Storing])
    case Close(id) => CloseStep(s, id)
  }

  const EMPTY := Queues([], [])
  const START := State(EMPTY, false, false, 0, 0, Idle, map[], map[], EMPTY, EMPTY, EMPTY, false)

  ghost predicate Runs(s: State, events: seq<Event>, s': State)
    decreases |events|
  {
    if events == [] then s' == s else Enabled(s, events[0]) && Runs(Step(s, events[0]), events[1..], s')
  }

  // ---- Conservation and capacity ----

  function InFlight(p: Producer, stderr: bool): seq<byte> {
    if !p.Idle? && p.m.stderr == stderr then Rest(p.m) else []
  }

  predicate Conserved(s: State) {
    && s.delivered.stdout + s.queues.stdout == s.accepted.stdout
    && s.delivered.stderr + s.queues.stderr == s.accepted.stderr
    && s.accepted.stdout + InFlight(s.producer, false) == s.received.stdout
    && s.accepted.stderr + InFlight(s.producer, true) == s.received.stderr
  }

  predicate Sized(s: State) {
    && Len(s.queues) <= MAX_BUFFER_BYTES
    && (!s.producer.Idle? ==> s.producer.m.offset <= |s.producer.m.data|)
  }

  ghost predicate ReadersBounded(s: State) {
    forall id :: id in s.readers ==> ReaderBounded(s.readers[id])
  }

  ghost predicate Bounded(s: State) {
    Sized(s) && ReadersBounded(s)
  }

  predicate ReaderBounded(r: Reader) {
    && 1 <= r.limit <= MAX_READ_BYTES
    && (r.Releasing? || r.Returned? ==> Len(r.result) <= r.limit)
  }

  lemma MoveOn(delivered: seq<byte>, queue: seq<byte>, part: seq<byte>, rest: seq<byte>)
    ensures delivered + (queue + part) == (delivered + queue) + part
    ensures (delivered + queue + part) + rest == delivered + queue + (part + rest)
  {
  }

  lemma AcceptConserves(s: State)
    requires s.producer.Subscribed? && Conserved(s) && Sized(s)
    ensures Conserved(Accept(s)) && Sized(Accept(s))
  {
    var m, s' := s.producer.m, Accept(s);
    var part := Taken(Rest(m), Free(s.queues));
    assert part + Rest(s'.producer.m) == Rest(m);
    MoveOn(s.delivered.stderr, s.queues.stderr, part, Rest(s'.producer.m));
    MoveOn(s.delivered.stdout, s.queues.stdout, part, Rest(s'.producer.m));
  }

  lemma ReadConserves(s: State, id: nat, expired: bool)
    requires id in s.readers && s.readers[id].Listening? && Conserved(s) && Sized(s)
    ensures Conserved(LockedRead(s, id, expired)) && Sized(LockedRead(s, id, expired))
  {
    hide Drained, Kept;
    var q, limit := s.queues, s.readers[id].limit;
    var out, rest := Drained(q, limit), Kept(q, limit);
    DrainConserves(q, limit);
    assert (s.delivered.stdout + out.stdout) + rest.stdout == s.delivered.stdout + q.stdout;
    assert (s.delivered.stderr + out.stderr) + rest.stderr == s.delivered.stderr + q.stderr;
  }

  lemma ProduceConserves(s: State)
    requires Conserved(s) && Sized(s)
    ensures Conserved(ProduceStep(s)) && Sized(ProduceStep(s))
  {
    hide Accept, Drained, Kept;
    if s.producer.Subscribed? {
      AcceptConserves(s);
    } else if s.producer.AtCheck? && s.producer.m.offset >= |s.producer.m.data| {
      assert Rest(s.producer.m) == [];
    }
  }

  lemma ConservedStep(s: State, e: Event)
    requires Enabled(s, e) && Conserved(s) && Sized(s)
    ensures Conserved(Step(s, e)) && Sized(Step(s, e))
  {
    hide Accept, LockedRead, ProduceStep, BatchReady;
    if e.Produce? {
      ProduceConserves(s);
    } else if e.Read? && s.readers[e.id].Listening? {
      ReadConserves(s, e.id, e.expired);
    } else if e.Receive? {
      assert Rest(Message(e.data, e.stderr, 0)) == e.data;
    } else if e.EndOfStream? {
      assert Rest(Message([], false, 0)) == [];
    } else {
      NothingMoves(s, e);
    }
  }

  lemma NothingMoves(s: State, e: Event)
    requires Enabled(s, e) && !e.Produce? && !e.Receive? && !e.EndOfStream?
    requires e.Read? ==> !s.readers[e.id].Listening?
    ensures var s' := Step(s, e);
      s'.queues == s.queues && s'.producer == s.producer && s'.received == s.received
      && s'.accepted == s.accepted && s'.delivered == s.delivered
  {
    hide ProduceStep, ReadStep, CloseStep, ClampedLimit;
    if e.Read? {
      ReadMovesNothing(s, e.id, e.expired);
    } else if e.Close? {
      CloseMovesNothing(s, e.id);
    }
  }

  lemma ReadMovesNothing(s: State, id: nat, expired: bool)
    requires id in s.readers && !s.readers[id].Listening?
    ensures var s' := ReadStep(s, id, expired); s' == s.(readers := s'.readers, spaceGen := s'.spaceGen)
  {
    hide LockedRead;
  }

  lemma CloseMovesNothing(s: State, id: nat)
    requires id in s.closers
    ensures var s' := CloseStep(s, id);
      s' == s.(closed := s'.closed, closers := s'.closers, dataGen := s'.dataGen, spaceGen := s'.spaceGen, slipped := s'.slipped)
  {
  }

  lemma ReadersBoundedStep(s: State, e: Event)
    requires Enabled(s, e) && ReadersBounded(s)
    ensures ReadersBounded(Step(s, e))
  {
    var s' := Step(s, e);
    forall id | id in s'.readers ensures ReaderBounded(s'.readers[id]) {
      if (e.Read? || e.Timeout? || e.StartRead?) && e.id == id {
        OwnReadBounded(s, e, id);
      } else {
        OtherReaders(s, e, id);
      }
    }
  }

  lemma OwnReadBounded(s: State, e: Event, id: nat)
    requires Enabled(s, e) && (e.Read? || e.Timeout? || e.StartRead?) && e.id == id
    requires id in s.readers ==> ReaderBounded(s.readers[id])
    ensures id in Step(s, e).readers && ReaderBounded(Step(s, e).readers[id])
  {
    hide Drained, Kept, BatchReady;
    if e.Read? && s.readers[id].Listening? {
      DrainConserves(s.queues, s.readers[id].limit);
    }
  }

  /** What the two locked sections leave alone. */
  lemma AcceptFrame(s: State)
    requires s.producer.Subscribed?
    ensures var s' := Accept(s); s'.producer.Notifying? && SameButQueues(s, s', s.readers, s'.producer)
  {
  }

  lemma LockedReadFrame(s: State, id: nat, expired: bool)
    requires id in s.readers && s.readers[id].Listening?
    ensures var s' := LockedRead(s, id, expired);
      id in s'.readers && SameButQueues(s, s', s.readers[id := s'.readers[id]], s.producer)
  {
    hide Drained, Kept, BatchReady;
  }

  predicate SameButQueues(s: State, s': State, readers: map<nat, Reader>, producer: Producer) {
    && s'.closed == s.closed && s'.dataGen == s.dataGen && s'.spaceGen == s.spaceGen
    && s'.producer == producer && s'.readers == readers && s'.closers == s.closers && s'.slipped == s.slipped
  }

  lemma LockedFrames(s: State, e: Event)
    requires Enabled(s, e)
    ensures e.Produce? && s.producer.Subscribed? ==> AcceptFrames(s)
    ensures e.Read? && s.readers[e.id].Listening? ==> ReadFrames(s, e.id, e.expired)
  {
    hide Accept, LockedRead;
    if e.Produce? && s.producer.Subscribed? {
      AcceptFrame(s);
    } else if e.Read? && s.readers[e.id].Listening? {
      LockedReadFrame(s, e.id, e.expired);
    }
  }

  predicate AcceptFrames(s: State)
    requires s.producer.Subscribed?
  {
    Accept(s).producer.Notifying? && SameButQueues(s, Accept(s), s.readers, Accept(s).producer)
  }

  predicate ReadFrames(s: State, id: nat, expired: bool)
    requires id in s.readers && s.readers[id].Listening?
  {
    var s' := LockedRead(s, id, expired);
    id in s'.readers && SameButQueues(s, s', s.readers[id := s'.readers[id]], s.producer)
  }

  // ---- Wakeups ----

  ghost predicate SomeoneReleasing(s: State) {
    exists id :: id in s.readers && s.readers[id].Releasing?
  }

  /** A closer that has stored the flag but not yet woken the reads. */
  ghost predicate CloserOwesReads(s: State) {
    exists id :: id in s.closers && s.closers[id].WakingReads?
  }

  ghost predicate CloserOwesProducer(s: State) {
    exists id :: id in s.closers && (s.closers[id].WakingReads? || s.closers[id].WakingProducer?)
  }

  /** A producer that nothing has woken since it subscribed faces a full buffer, or a read that is
      about to wake it. */
  ghost predicate ProducerSafe(s: State) {
    && (s.producer.Waiting? || s.producer.Subscribed? ==> s.producer.gen <= s.spaceGen)
    && (s.producer.Waiting? && s.producer.gen == s.spaceGen ==> Free(s.queues) == 0 || SomeoneReleasing(s))
  }

  ghost predicate ReaderSafe(s: State, r: Reader) {
    && (r.Listening? || r.Sleeping? ==> r.gen <= s.dataGen)
    && (r.Sleeping? && !r.buffered && r.gen == s.dataGen ==>
          (Len(s.queues) == 0 || s.producer.Notifying?) && (!s.closed || CloserOwesReads(s)))
  }

  ghost predicate ReadersSafe(s: State) {
    forall id :: id in s.readers ==> ReaderSafe(s, s.readers[id])
  }

  /** Whether a wakeup issued from now on is the only thing that can resume the producer. */
  predicate Unwoken(s: State) {
    s.producer.Checked? || ((s.producer.Subscribed? || s.producer.Waiting?) && s.producer.gen == s.spaceGen)
  }

  /** After a close, the producer has been or will be woken, unless the whole close fell between
      the producer's check of the flag and its subscription. */
  ghost predicate CloseSeen(s: State) {
    s.closed && Unwoken(s) ==> CloserOwesProducer(s) || s.slipped
  }

  /** How a step can change what a sleeping read depends on. */
  predicate DataMoves(s: State, s': State) {
    && s'.dataGen >= s.dataGen
    && (s.producer.Notifying? ==> s'.producer.Notifying? || s'.dataGen > s.dataGen)
    && (Len(s.queues) == 0 ==> Len(s'.queues) == 0 || s'.producer.Notifying?)
  }

  lemma ProduceData(s: State)
    ensures DataMoves(s, ProduceStep(s)) && ProduceStep(s).closed == s.closed
  {
    hide Accept;
    if s.producer.Subscribed? {
      AcceptFrame(s);
    }
  }

  lemma ReadData(s: State, id: nat, expired: bool)
    requires id in s.readers
    ensures DataMoves(s, ReadStep(s, id, expired)) && ReadStep(s, id, expired).closed == s.closed
  {
    if s.readers[id].Listening? {
      LockedReadFrame(s, id, expired);
      LockedReadShrinks(s, id, expired);
    }
    hide LockedRead;
  }

  lemma LockedReadShrinks(s: State, id: nat, expired: bool)
    requires id in s.readers && s.readers[id].Listening?
    ensures Len(LockedRead(s, id, expired).queues) <= Len(s.queues)
  {
    DrainConserves(s.queues, s.readers[id].limit);
    hide Drained, Kept, BatchReady;
  }

  lemma CloseData(s: State, id: nat)
    requires id in s.closers
    ensures DataMoves(s, CloseStep(s, id)) && (s.closed ==> CloseStep(s, id).closed)
    ensures CloseStep(s, id).closed == s.closed || s.closers[id].Storing?
  {
  }

  lemma DataFacts(s: State, e: Event)
    requires Enabled(s, e)
    ensures var s' := Step(s, e);
      && DataMoves(s, s')
      && (s.closed ==> s'.closed)
      && (s'.closed == s.closed || (e.Close? && s.closers[e.id].Storing?))
  {
    hide ProduceStep, ReadStep, CloseStep, ClampedLimit;
    if e.Produce? {
      ProduceData(s);
    } else if e.Read? {
      ReadData(s, e.id, e.expired);
    } else if e.Close? {
      CloseData(s, e.id);
    }
  }

  /** Only a read's own events change it. */
  lemma OtherReaders(s: State, e: Event, id: nat)
    requires Enabled(s, e) && !((e.Read? || e.Timeout? || e.StartRead?) && e.id == id)
    ensures id in Step(s, e).readers <==> id in s.readers
    ensures id in s.readers ==> Step(s, e).readers[id] == s.readers[id]
  {
    hide Accept, LockedRead, ProduceStep, CloseStep, ReadStep;
    if e.Produce? {
      ProduceFrame(s);
    } else if e.Read? {
      ReadFrame(s, e.id, e.expired, id);
    } else if e.Close? {
      CloseFrame(s, e.id);
    }
  }

  lemma ProduceFrame(s: State)
    ensures ProduceStep(s).readers == s.readers && ProduceStep(s).closers == s.closers
  {
    hide Accept;
    if s.producer.Subscribed? {
      AcceptFrame(s);
    }
  }

  lemma ReadFrame(s: State, id: nat, expired: bool, other: nat)
    requires id in s.readers
    ensures ReadStep(s, id, expired).closers == s.closers
    ensures other != id ==> (other in ReadStep(s, id, expired).readers <==> other in s.readers)
    ensures other != id && other in s.readers ==> ReadStep(s, id, expired).readers[other] == s.readers[other]
  {
    hide LockedRead;
    if s.readers[id].Listening? {
      LockedReadFrame(s, id, expired);
    }
  }

  lemma CloseFrame(s: State, id: nat)
    requires id in s.closers
    ensures CloseStep(s, id).readers == s.readers
  {
  }

  lemma ReaderSafeStep(s: State, e: Event)
    requires Enabled(s, e) && ReadersSafe(s)
    ensures ReadersSafe(Step(s, e))
  {
    var s' := Step(s, e);
    CloserOwesReadsStep(s, e);
    DataFacts(s, e);
    forall id | id in s'.readers ensures ReaderSafe(s', s'.readers[id]) {
      if (e.Read? || e.Timeout? || e.StartRead?) && e.id == id {
        OwnReadSafe(s, e, id);
      } else {
        OtherReaders(s, e, id);
        assert ReaderSafe(s, s.readers[id]);
        OtherReaderSafe(s, s', s.readers[id]);
      }
    }
  }

  lemma OtherReaderSafe(s: State, s': State, r: Reader)
    requires ReaderSafe(s, r) && s'.dataGen >= s.dataGen
    requires s.producer.Notifying? ==> s'.producer.Notifying? || s'.dataGen > s.dataGen
    requires Len(s.queues) == 0 ==> Len(s'.queues) == 0 || s'.producer.Notifying?
    requires CloserOwesReads(s) ==> CloserOwesReads(s') || s'.dataGen > s.dataGen
    requires s'.closed == s.closed || CloserOwesReads(s')
    ensures ReaderSafe(s', r)
  {
    hide CloserOwesReads, Len;
  }

  lemma StoredOwes(s: State, id: nat)
    requires id in s.closers && s.closers[id].Storing?
    ensures CloserOwesReads(CloseStep(s, id)) && CloserOwesProducer(CloseStep(s, id))
  {
    assert id in CloseStep(s, id).closers && CloseStep(s, id).closers[id].WakingReads?;
  }

  /** Only its own events change a closer. */
  lemma OtherClosers(s: State, e: Event, id: nat)
    requires Enabled(s, e) && id in s.closers && !(e.Close? && e.id == id)
    ensures id in Step(s, e).closers && Step(s, e).closers[id] == s.closers[id]
  {
    hide Accept, LockedRead, ProduceStep, ReadStep;
    if e.Produce? {
      ProduceFrame(s);
    } else if e.Read? {
      ReadFrame(s, e.id, e.expired, e.id);
    }
  }

  /** A closer keeps owing the reads a wakeup until it pays. */
  lemma CloserOwesReadsStep(s: State, e: Event)
    requires Enabled(s, e)
    ensures CloserOwesReads(s) ==> CloserOwesReads(Step(s, e)) || Step(s, e).dataGen > s.dataGen
    ensures Step(s, e).closed == s.closed || CloserOwesReads(Step(s, e))
  {
    DataFacts(s, e);
    if e.Close? && s.closers[e.id].Storing? {
      StoredOwes(s, e.id);
    }
    if CloserOwesReads(s) {
      var id :| id in s.closers && s.closers[id].WakingReads?;
      if !(e.Close? && e.id == id) {
        OtherClosers(s, e, id);
      }
    }
  }

  lemma OwnReadSafe(s: State, e: Event, id: nat)
    requires Enabled(s, e) && (e.Read? || e.Timeout? || e.StartRead?) && e.id == id
    requires id in s.readers ==> ReaderSafe(s, s.readers[id])
    ensures id in Step(s, e).readers && ReaderSafe(Step(s, e), Step(s, e).readers[id])
  {
    hide Drained, Kept, CloserOwesReads, BatchReady;
    if e.Read? && s.readers[id].Listening? {
      LockedReadSafe(s, id, e.expired);
    }
  }

  lemma LockedReadSafe(s: State, id: nat, expired: bool)
    requires id in s.readers && s.readers[id].Listening? && ReaderSafe(s, s.readers[id])
    ensures var s' := LockedRead(s, id, expired); id in s'.readers && ReaderSafe(s', s'.readers[id])
  {
    hide Drained, Kept, CloserOwesReads, BatchReady;
  }

  /** How one event can change what a sleeping producer depends on. */
  lemma SpaceFacts(s: State, e: Event)
    requires Enabled(s, e)
    ensures Step(s, e).spaceGen == s.spaceGen +
      if (e.Read? && s.readers[e.id].Releasing?) || (e.Close? && s.closers[e.id].WakingProducer?) then 1 else 0
  {
    hide Accept, LockedRead, Free;
    LockedFrames(s, e);
  }

  lemma ProducerFacts(s: State, e: Event)
    requires Enabled(s, e)
    ensures var s' := Step(s, e);
      && (e != Produce && !e.Receive? && !e.EndOfStream? ==> s'.producer == s.producer)
      && (s'.slipped == if e.Close? && s.closers[e.id].WakingProducer? then s.slipped || s.producer.Checked?
                        else s.slipped && !(e.Produce? && s'.producer.Checked?))
  {
    hide Accept, LockedRead, Free;
    LockedFrames(s, e);
  }

  lemma ReleasingStep(s: State, e: Event)
    requires Enabled(s, e) && SomeoneReleasing(s)
    ensures SomeoneReleasing(Step(s, e)) || Step(s, e).spaceGen > s.spaceGen
  {
    var id :| id in s.readers && s.readers[id].Releasing?;
    SpaceFacts(s, e);
    if !(e.Read? && e.id == id) {
      OtherReaders(s, e, id);
    }
  }

  /** Only a read makes room, and it then owes the producer a wakeup. */
  lemma RoomIsAnnounced(s: State, e: Event)
    requires Enabled(s, e) && Len(s.queues) <= MAX_BUFFER_BYTES
    ensures Free(s.queues) == 0 ==> Free(Step(s, e).queues) == 0 || SomeoneReleasing(Step(s, e))
  {
    hide Drained, Kept;
    if e.Read? {
      if s.readers[e.id].Listening? {
        ReadReleases(s, e.id, e.expired);
      }
    } else if e == Produce {
      hide Taken, Push;
    }
  }

  lemma ReadReleases(s: State, id: nat, expired: bool)
    requires id in s.readers && s.readers[id].Listening?
    ensures LockedRead(s, id, expired).queues == s.queues || SomeoneReleasing(LockedRead(s, id, expired))
  {
    hide Drained, Kept, BatchReady;
    var s' := LockedRead(s, id, expired);
    assert id in s'.readers;
    assert s'.readers[id].Releasing? || s'.queues == s.queues;
  }

  lemma ProducerSafeStep(s: State, e: Event)
    requires Enabled(s, e) && Sized(s) && ProducerSafe(s)
    ensures ProducerSafe(Step(s, e))
  {
    hide Drained, Kept, Push, Taken, SomeoneReleasing, Accept, LockedRead, BatchReady, Len;
    RoomIsAnnounced(s, e);
    SpaceFacts(s, e);
    ProducerFacts(s, e);
    if SomeoneReleasing(s) {
      ReleasingStep(s, e);
    }
    if e == Produce {
      ProducerOwnStep(s);
    }
  }

  lemma ProducerOwnStep(s: State)
    requires Enabled(s, Produce) && ProducerSafe(s)
    ensures ProducerSafe(ProduceStep(s))
  {
    hide Push, Taken, SomeoneReleasing;
  }

  lemma OwesProducerStep(s: State, e: Event)
    requires Enabled(s, e) && CloserOwesProducer(s)
    ensures CloserOwesProducer(Step(s, e)) || (e.Close? && s.closers[e.id].WakingProducer?)
  {
    var id :| id in s.closers && (s.closers[id].WakingReads? || s.closers[id].WakingProducer?);
    if !(e.Close? && e.id == id) {
      OtherClosers(s, e, id);
    }
    assert id in Step(s, e).closers;
  }

  lemma CloseSeenStep(s: State, e: Event)
    requires Enabled(s, e) && ProducerSafe(s) && CloseSeen(s)
    ensures CloseSeen(Step(s, e))
  {
    hide CloserOwesProducer, CloserOwesReads, SomeoneReleasing, Accept, LockedRead, Free, Len;
    DataFacts(s, e);
    SpaceFacts(s, e);
    ProducerFacts(s, e);
    if e.Close? && s.closers[e.id].Storing? {
      StoredOwes(s, e.id);
    }
    if CloserOwesProducer(s) {
      OwesProducerStep(s, e);
    }
    if e == Produce {
      UnwokenStep(s);
    }
  }

  lemma UnwokenStep(s: State)
    requires Enabled(s, Produce) && ProducerSafe(s)
    ensures Unwoken(ProduceStep(s)) ==> Unwoken(s) || (s.producer.AtCheck? && !s.closed)
    ensures ProduceStep(s).closed == s.closed
    ensures ProduceStep(s).producer.Checked? ==> !s.closed
  {
    hide Push, Taken;
  }

  ghost predicate Inv(s: State) {
    Conserved(s) && Bounded(s) && ReadersSafe(s) && ProducerSafe(s) && CloseSeen(s)
  }

  lemma InvStep(s: State, e: Event)
    requires Enabled(s, e) && Inv(s)
    ensures Inv(Step(s, e))
  {
    hide Step, Conserved, Sized, ReadersBounded, ReadersSafe, ProducerSafe, CloseSeen;
    ConservedStep(s, e);
    ReadersBoundedStep(s, e);
    ReaderSafeStep(s, e);
    ProducerSafeStep(s, e);
    CloseSeenStep(s, e);
  }

  lemma {:induction false} InvRuns(s: State, events: seq<Event>, s': State)
    requires Inv(s) && Runs(s, events, s')
    ensures Inv(s')
    decreases |events|
  {
    hide Enabled, Step, Inv;
    if events != [] {
      InvStep(s, events[0]);
      InvRuns(Step(s, events[0]), events[1..], s');
    }
  }

  lemma Reachable(events: seq<Event>, s: State)
    requires Runs(START, events, s)
    ensures Inv(s)
  {
    InvRuns(START, events, s);
  }

  // ---- Theorems over every run ----

  /** What the channel handed over, read off the events. */
  function Sent(events: seq<Event>, stderr: bool): seq<byte> {
    if events == [] then [] else
      (if events[0].Receive? && events[0].stderr == stderr then events[0].data else []) + Sent(events[1..], stderr)
  }

  /** Whether a read gets its bytes in this event. */
  predicate Gets(s: State, e: Event) {
    && e.Read? && Enabled(s, e) && s.readers[e.id].Listening?
    && Step(s, e).readers[e.id].Releasing?
  }

  /** The reads that got their bytes, in that order. */
  ghost function Served(s: State, events: seq<Event>): seq<nat>
    decreases |events|
  {
    if events == [] || !Enabled(s, events[0]) then [] else
      (if Gets(s, events[0]) then [events[0].id] else []) + Served(Step(s, events[0]), events[1..])
  }

  predicate Settled(s: State, id: nat) {
    id in s.readers && (s.readers[id].Releasing? || s.readers[id].Returned?)
  }

  /** What these reads return, one after the other. */
  function Results(s: State, ids: seq<nat>, stderr: bool): seq<byte> {
    if ids == [] then [] else
      (if !Settled(s, ids[0]) then [] else if stderr then s.readers[ids[0]].result.stderr else s.readers[ids[0]].result.stdout)
      + Results(s, ids[1..], stderr)
  }

  /** What a read will return is settled when it gets its bytes. */
  lemma SettledStep(s: State, e: Event, id: nat)
    requires Enabled(s, e) && Settled(s, id)
    ensures Settled(Step(s, e), id) && Step(s, e).readers[id].result == s.readers[id].result
  {
    if (e.Read? || e.Timeout? || e.StartRead?) && e.id == id {
      hide LockedRead;
    } else {
      OtherReaders(s, e, id);
    }
  }

  lemma {:induction false} ResultStays(s: State, events: seq<Event>, s': State, id: nat)
    requires Runs(s, events, s') && Settled(s, id)
    ensures Settled(s', id) && s'.readers[id].result == s.readers[id].result
    decreases |events|
  {
    hide Step, Enabled, Settled;
    if events != [] {
      SettledStep(s, events[0], id);
      ResultStays(Step(s, events[0]), events[1..], s', id);
    }
  }

  lemma GetsResult(s: State, e: Event)
    requires Enabled(s, e)
    ensures var s' := Step(s, e);
      if Gets(s, e)
      then Settled(s', e.id) && s'.delivered == Queues(s.delivered.stdout + s'.readers[e.id].result.stdout,
                                                       s.delivered.stderr + s'.readers[e.id].result.stderr)
      else s'.delivered == s.delivered
  {
    hide Accept, Drained, Kept, BatchReady, ClampedLimit;
    if e.Produce? {
      ProduceDelivers(s);
    }
  }

  lemma ProduceDelivers(s: State)
    ensures ProduceStep(s).delivered == s.delivered && ProduceStep(s).received == s.received
  {
    hide Accept, Free;
    if s.producer.Subscribed? {
      AcceptDelivers(s);
    }
  }

  lemma AcceptDelivers(s: State)
    requires s.producer.Subscribed?
    ensures Accept(s).delivered == s.delivered && Accept(s).received == s.received
  {
  }

  lemma {:induction false} DeliveredIsResults(s: State, events: seq<Event>, s': State)
    requires Runs(s, events, s')
    ensures s'.delivered.stdout == s.delivered.stdout + Results(s', Served(s, events), false)
    ensures s'.delivered.stderr == s.delivered.stderr + Results(s', Served(s, events), true)
    decreases |events|
  {
    assert events != [] && Gets(s, events[0]) ==> events[0].Read?;
    hide Step, Enabled, Settled, Gets;
    if events != [] {
      var e, s1 := events[0], Step(s, events[0]);
      GetsResult(s, e);
      DeliveredIsResults(s1, events[1..], s');
      var rest := Served(s1, events[1..]);
      if Gets(s, e) {
        ResultStays(s1, events[1..], s', e.id);
        ResultsFirst(s', e.id, rest);
        assert Served(s, events) == [e.id] + rest;
        hide *;
        Associate(s.delivered.stdout, s'.readers[e.id].result.stdout, Results(s', rest, false));
        Associate(s.delivered.stderr, s'.readers[e.id].result.stderr, Results(s', rest, true));
      } else {
        assert Served(s, events) == [] + rest == rest;
        hide *;
      }
    } else {
      assert Served(s, events) == [];
      hide Served, Runs;
    }
  }

  lemma Associate(a: seq<byte>, b: seq<byte>, c: seq<byte>)
    ensures (a + b) + c == a + (b + c)
  {
  }

  lemma ResultsFirst(s: State, id: nat, ids: seq<nat>)
    requires Settled(s, id)
    ensures Results(s, [id] + ids, false) == s.readers[id].result.stdout + Results(s, ids, false)
    ensures Results(s, [id] + ids, true) == s.readers[id].result.stderr + Results(s, ids, true)
  {
    assert ([id] + ids)[1..] == ids;
  }

  lemma ReceiveStep(s: State, e: Event)
    requires Enabled(s, e)
    ensures Step(s, e).received == if e.Receive? then Push(s.received, e.data, e.stderr) else s.received
  {
    hide Accept, Drained, Kept, BatchReady, ClampedLimit, LockedRead;
    if e.Produce? {
      ProduceDelivers(s);
    } else if e.Read? && s.readers[e.id].Listening? {
      LockedReadReceives(s, e.id, e.expired);
    }
  }

  lemma LockedReadReceives(s: State, id: nat, expired: bool)
    requires id in s.readers && s.readers[id].Listening?
    ensures LockedRead(s, id, expired).received == s.received
  {
    hide Drained, Kept, BatchReady;
  }

  lemma {:induction false} ReceivedIsSent(s: State, events: seq<Event>, s': State)
    requires Runs(s, events, s')
    ensures s'.received.stdout == s.received.stdout + Sent(events, false)
    ensures s'.received.stderr == s.received.stderr + Sent(events, true)
    decreases |events|
  {
    hide Step, Enabled;
    if events != [] {
      ReceiveStep(s, events[0]);
      ReceivedIsSent(Step(s, events[0]), events[1..], s');
    }
  }

  /** Per stream: what the reads return, in the order they got it, then what is queued, then what is left
      of the message in hand, is exactly what the channel handed over; the buffer never exceeds 2 MiB. */
  lemma OutputConserved(events: seq<Event>, s: State)
    requires Runs(START, events, s)
    ensures var served := Served(START, events);
      && Results(s, served, false) + s.queues.stdout + InFlight(s.producer, false) == Sent(events, false)
      && Results(s, served, true) + s.queues.stderr + InFlight(s.producer, true) == Sent(events, true)
    ensures Len(s.queues) <= MAX_BUFFER_BYTES
  {
    Reachable(events, s);
    DeliveredIsResults(START, events, s);
    ReceivedIsSent(START, events, s);
    assert Bounded(s);
    hide Runs, Served, Results, Sent, InFlight;
    var out, err := Results(s, Served(START, events), false), Results(s, Served(START, events), true);
    assert [] + out == out && [] + err == err;
    assert [] + Sent(events, false) == Sent(events, false) && [] + Sent(events, true) == Sent(events, true);
  }

  /** A read is served at most once, and one that is not returns nothing. */
  lemma {:induction false} ServedOnce(s: State, events: seq<Event>, s': State, id: nat)
    requires Runs(s, events, s')
    ensures Settled(s, id) ==> id !in Served(s, events)
    ensures forall i, j :: 0 <= i < j < |Served(s, events)| && Served(s, events)[i] == id ==> Served(s, events)[j] != id
    ensures !Settled(s, id) && Settled(s', id) && id !in Served(s, events) ==> s'.readers[id].result == EMPTY
    ensures id in Served(s, events) ==> Settled(s', id)
    decreases |events|
  {
    if events != [] {
      var e, s1 := events[0], Step(s, events[0]);
      ServedOnce(s1, events[1..], s', id);
      SettlesOnce(s, e, id);
      hide Step, Enabled, Settled, Gets;
      if Settled(s1, id) {
        ResultStays(s1, events[1..], s', id);
      }
    }
  }

  lemma SettlesOnce(s: State, e: Event, id: nat)
    requires Enabled(s, e)
    ensures Settled(s, id) ==> Settled(Step(s, e), id) && !(Gets(s, e) && e.id == id)
    ensures !Settled(s, id) && Settled(Step(s, e), id) && !(Gets(s, e) && e.id == id) ==> Step(s, e).readers[id].result == EMPTY
    ensures Gets(s, e) ==> Settled(Step(s, e), e.id)
  {
    if (e.Read? || e.Timeout? || e.StartRead?) && e.id == id {
      hide Drained, Kept, BatchReady, ClampedLimit;
    } else {
      OtherReaders(s, e, id);
    }
  }

  /** How many bytes a read was asked for. */
  function Asked(events: seq<Event>, id: nat): nat {
    if events == [] then 0
    else if events[0].StartRead? && events[0].id == id then events[0].maxBytes
    else Asked(events[1..], id)
  }

  lemma LimitStep(s: State, e: Event, id: nat)
    requires Enabled(s, e)
    ensures id in s.readers ==> id in Step(s, e).readers && Step(s, e).readers[id].limit == s.readers[id].limit
    ensures id !in s.readers && id in Step(s, e).readers ==>
      e.StartRead? && e.id == id && Step(s, e).readers[id].limit == ClampedLimit(e.maxBytes)
    ensures e.StartRead? && e.id == id ==> id !in s.readers && id in Step(s, e).readers
  {
    if (e.Read? || e.Timeout? || e.StartRead?) && e.id == id {
      hide Drained, Kept, BatchReady, ClampedLimit;
    } else {
      OtherReaders(s, e, id);
    }
  }

  lemma {:induction false} LimitRuns(s: State, events: seq<Event>, s': State, id: nat)
    requires Runs(s, events, s')
    ensures id in s.readers ==> id in s'.readers && s'.readers[id].limit == s.readers[id].limit
    ensures id !in s.readers && id in s'.readers ==> s'.readers[id].limit == ClampedLimit(Asked(events, id))
    decreases |events|
  {
    hide Step, Enabled, ClampedLimit;
    if events != [] {
      LimitStep(s, events[0], id);
      LimitRuns(Step(s, events[0]), events[1..], s', id);
    }
  }

  /** A read is held to the number of bytes it was asked for, but at least one and at most 256 KiB. */
  lemma LimitIsAsked(events: seq<Event>, s: State, id: nat)
    requires Runs(START, events, s) && id in s.readers
    ensures var asked := Asked(events, id);
      s.readers[id].limit == if asked == 0 then 1 else if asked > 256 * 1024 then 256 * 1024 else asked
  {
    LimitRuns(START, events, s, id);
    hide Runs, Asked;
  }

  /** Whether a read looks at the queues in this event and finds data. */
  predicate Finds(s: State, e: Event) {
    e.Read? && Enabled(s, e) && s.readers[e.id].Listening? && Len(s.queues) > 0
  }

  /** Whether input has been sent since a read last found data. */
  ghost function Awaited(s: State, events: seq<Event>, before: bool): bool
    decreases |events|
  {
    if events == [] || !Enabled(s, events[0]) then before else
      Awaited(Step(s, events[0]), events[1..], events[0].Write? || (before && !Finds(s, events[0])))
  }

  /** Whether this read has found data before. */
  ghost function Found(s: State, events: seq<Event>, id: nat, before: bool): bool
    decreases |events|
  {
    if events == [] || !Enabled(s, events[0]) then before else
      Found(Step(s, events[0]), events[1..], id, before || (Finds(s, events[0]) && events[0].id == id))
  }

  predicate Waits(s: State, id: nat) {
    id in s.readers && !Settled(s, id)
  }

  predicate Holding(s: State, id: nat) {
    Waits(s, id) && s.readers[id].deadline
  }

  lemma HintsStep(s: State, e: Event, id: nat)
    requires Enabled(s, e)
    ensures Step(s, e).interactive == (e.Write? || (s.interactive && !Finds(s, e)))
    ensures !Settled(Step(s, e), id) ==>
      !Settled(s, id) && (Holding(Step(s, e), id) <==> Holding(s, id) || (Finds(s, e) && e.id == id))
  {
    hide Accept, Drained, Kept, ClampedLimit, ProduceStep;
    if e.Produce? {
      ProduceFrame(s);
      ProduceHints(s);
    } else if !((e.Read? || e.Timeout? || e.StartRead?) && e.id == id) {
      OtherReaders(s, e, id);
    }
  }

  lemma ProduceHints(s: State)
    ensures ProduceStep(s).interactive == s.interactive
  {
    hide Accept, Free;
    if s.producer.Subscribed? {
      AcceptHints(s);
    }
  }

  lemma AcceptHints(s: State)
    requires s.producer.Subscribed?
    ensures Accept(s).interactive == s.interactive
  {
  }

  lemma {:induction false} HintsRuns(s: State, events: seq<Event>, s': State, id: nat)
    requires Runs(s, events, s')
    ensures s'.interactive == Awaited(s, events, s.interactive)
    ensures !Settled(s', id) ==> !Settled(s, id) && Holding(s', id) == Found(s, events, id, Holding(s, id))
    decreases |events|
  {
    hide Step, Enabled, Finds, Holding, Settled;
    if events != [] {
      HintsStep(s, events[0], id);
      HintsRuns(Step(s, events[0]), events[1..], s', id);
    }
  }

  /** When a read that looks at the queues returns: after a close, or with data if input was sent since data
      was last found, or a batch is ready, or its own deadline has passed; and with how much. */
  lemma ReadReturnsIff(events: seq<Event>, s: State, id: nat, expired: bool)
    requires Runs(START, events, s) && id in s.readers && s.readers[id].Listening?
    ensures Enabled(s, Read(id, expired))
    ensures var s' := Step(s, Read(id, expired)); var n, limit := Len(s.queues), s.readers[id].limit;
      && (Settled(s', id) <==>
          s.closed || (n > 0 && (Awaited(START, events, false) || n >= limit || n >= 64 * 1024 ||
                                 (expired && Found(START, events, id, false)))))
      && (Settled(s', id) ==>
          && s'.readers[id].result.stdout + s'.queues.stdout == s.queues.stdout
          && s'.readers[id].result.stderr + s'.queues.stderr == s.queues.stderr
          && Len(s'.readers[id].result) == (if n < limit then n else limit)
          && (s'.readers[id].result.stderr != [] ==> s'.queues.stdout == []))
      && (!Settled(s', id) ==> s'.queues == s.queues && id in s'.readers && s'.readers[id].Sleeping?)
  {
    HintsRuns(START, events, s, id);
    DrainConserves(s.queues, s.readers[id].limit);
    hide Runs, Awaited, Found, Drained, Kept;
  }

  /** A read's own next action, its deadlines having passed. */
  function Own(s: State, id: nat): Event {
    if id in s.readers && s.readers[id].Sleeping? then Timeout(id) else Read(id, true)
  }

  predicate MovesOn(s: State, s': State, id: nat) {
    id in s.readers && id in s'.readers &&
    var r, r' := s.readers[id], s'.readers[id];
    match r
    case Starting(_, deadline) => r'.Listening? && r'.deadline == deadline && s'.queues == s.queues
    case Sleeping(_, deadline, _, buffered) =>
      if buffered then r'.Starting? && r'.deadline == deadline && s'.queues == s.queues else r'.Returned?
    case Listening(_, deadline, _) =>
      r'.Releasing? || (s'.queues == s.queues && r'.Sleeping? &&
                        if Len(s.queues) > 0 then !deadline && r'.deadline && r'.buffered else !r'.buffered)
    case Releasing(_, _) => r'.Returned?
    case Returned(_, _) => true
  }

  lemma OwnFacts(s: State, id: nat)
    requires Waits(s, id) || Settled(s, id)
    ensures !s.readers[id].Returned? ==> Enabled(s, Own(s, id)) && MovesOn(s, Step(s, Own(s, id)), id)
  {
    hide Drained, Kept;
  }

  lemma RunOn(events: seq<Event>, own: seq<Event>, s: State, e: Event) returns (own': seq<Event>, s': State)
    requires Runs(START, events + own, s) && Enabled(s, e)
    ensures s' == Step(s, e) && own' == own + [e] && Runs(START, events + own', s')
  {
    own', s' := own + [e], Step(s, e);
    assert events + own' == (events + own) + [e];
    RunsThen(START, events + own, s, e);
  }

  ghost predicate OwnOnly(own: seq<Event>, id: nat) {
    forall i :: 0 <= i < |own| ==> own[i] == Timeout(id) || own[i] == Read(id, true)
  }

  /** How many actions of its own a read may still need. */
  function Patience(s: State, id: nat): nat
    requires id in s.readers
  {
    match s.readers[id]
    case Returned(_, _) => 0
    case Releasing(_, _) => 1
    case Sleeping(_, deadline, _, buffered) => if !buffered then 1 else if deadline then 5 else 8
    case Listening(_, deadline, _) => if Len(s.queues) == 0 || deadline then 3 else 6
    case Starting(_, deadline) => if Len(s.queues) == 0 || deadline then 4 else 7
  }

  lemma PatienceFalls(s: State, s': State, id: nat)
    requires MovesOn(s, s', id) && !s.readers[id].Returned?
    ensures Patience(s', id) < Patience(s, id) && (Waits(s', id) || Settled(s', id))
  {
    hide Len;
  }

  /** A read ends by its own actions: once its deadlines have passed it returns, whatever all others do. */
  lemma {:induction false} ReadsEnd(events: seq<Event>, own: seq<Event>, s: State, id: nat) returns (own': seq<Event>, s': State)
    requires Runs(START, events + own, s) && (Waits(s, id) || Settled(s, id)) && OwnOnly(own, id)
    ensures Runs(START, events + own', s') && id in s'.readers && s'.readers[id].Returned? && OwnOnly(own', id)
    ensures own <= own' && |own'| <= |own| + Patience(s, id)
    decreases Patience(s, id)
  {
    if s.readers[id].Returned? {
      own', s' := own, s;
    } else {
      OwnFacts(s, id);
      PatienceFalls(s, Step(s, Own(s, id)), id);
      hide Runs, Step, Enabled, MovesOn, Patience;
      own', s' := RunOn(events, own, s, Own(s, id));
      own', s' := ReadsEnd(events, own', s', id);
    }
  }

  lemma AcceptsWhole(s: State)
    requires s.producer.Subscribed? && 0 < |Rest(s.producer.m)| <= Free(s.queues)
    ensures var m := s.producer.m; var s' := Accept(s);
      && s'.producer == Notifying(m.(offset := |m.data|)) && s'.queues == Push(s.queues, Rest(m), m.stderr)
      && s'.closed == s.closed && s'.dataGen == s.dataGen && s'.readers == s.readers
  {
    assert Taken(Rest(s.producer.m), Free(s.queues)) == Rest(s.producer.m);
  }

  /** A message that fits is queued whole by the producer's own actions, once it is awake and the session open. */
  lemma MessageFits(events: seq<Event>, own: seq<Event>, s: State) returns (own': seq<Event>, s': State)
    requires Runs(START, events + own, s) && s.producer.AtCheck? && !s.closed && s.producer.m.offset < |s.producer.m.data|
    requires |Rest(s.producer.m)| <= Free(s.queues)
    ensures own' == own + [Produce, Produce, Produce, Produce, Produce] && Runs(START, events + own', s')
    ensures s'.producer.Idle? && s'.dataGen == s.dataGen + 1 && s'.readers == s.readers && !s'.closed
    ensures var m := s.producer.m;
      && s'.queues.stdout == s.queues.stdout + (if m.stderr then [] else m.data[m.offset..])
      && s'.queues.stderr == s.queues.stderr + (if m.stderr then m.data[m.offset..] else [])
  {
    hide Runs;
    hide Accept;
    var m := s.producer.m;
    own', s' := RunOn(events, own, s, Produce);
    own', s' := RunOn(events, own', s', Produce);
    assert s'.producer == Subscribed(m, s.spaceGen) && s'.queues == s.queues && s'.dataGen == s.dataGen;
    AcceptsWhole(s');
    own', s' := RunOn(events, own', s', Produce);
    hide Free;
    own', s' := RunOn(events, own', s', Produce);
    own', s' := RunOn(events, own', s', Produce);
  }

  /** Nothing is queued, in hand or given up. */
  predicate Quiet(s: State) {
    s.producer.Idle? && s.queues == EMPTY && !s.closed
  }

  /** A message from the channel, and then a read that has been asked for after some input. */
  lemma MessagePasses(events: seq<Event>, s: State, m: Message, id: nat) returns (events': seq<Event>, s': State)
    requires Runs(START, events, s) && Quiet(s) && id !in s.readers && |m.data| <= MAX_READ_BYTES
    ensures Runs(START, events', s') && Quiet(s') && s'.readers.Keys == s.readers.Keys + {id}
    ensures exists own :: events' == events + ([Receive(m.data, m.stderr)] + own) && NoReceive(own)
  {
    var arrival, own := [Receive(m.data, m.stderr)], [];
    s', events' := After(START, events, s, Receive(m.data, m.stderr));
    assert events' == events + arrival;
    assert Rest(s'.producer.m) == m.data;
    var first := events';
    assert first + own == first;
    if m.data == [] {
      own, s' := RunOn(first, own, s', Produce);
    } else {
      own, s' := MessageFits(first, own, s');
    }
    assert s'.producer.Idle? && s'.readers == s.readers && !s'.closed && Len(s'.queues) == |m.data|;
    own, s' := ReadAll(first, own, s', id);
    events' := first + own;
    assert events' == events + (arrival + own);
  }

  ghost predicate NoReceive(own: seq<Event>) {
    forall i :: 0 <= i < |own| ==> !own[i].Receive?
  }

  /** A read that is asked for after some input, with no more queued than it may take, takes it all. */
  lemma ReadAll(events: seq<Event>, own: seq<Event>, s: State, id: nat) returns (own': seq<Event>, s': State)
    requires Runs(START, events + own, s) && s.producer.Idle? && !s.closed && id !in s.readers
    requires Len(s.queues) <= MAX_READ_BYTES && NoReceive(own)
    ensures Runs(START, events + own', s') && Quiet(s') && s'.readers.Keys == s.readers.Keys + {id} && NoReceive(own')
  {
    hide Runs, Drained, Kept;
    own', s' := RunOn(events, own, s, Write);
    own', s' := RunOn(events, own', s', StartRead(id, MAX_READ_BYTES));
    own', s' := RunOn(events, own', s', Read(id, true));
    assert s'.readers[id] == Listening(MAX_READ_BYTES, false, s.dataGen) && s'.queues == s.queues && s'.interactive;
    DrainConserves(s.queues, MAX_READ_BYTES);
    own', s' := RunOn(events, own', s', Read(id, true));
    if Len(s.queues) > 0 {
      assert s'.readers[id].Releasing? && Len(s'.queues) == 0;
    }
    assert s'.queues == EMPTY;
  }

  function AllOf(messages: seq<Message>, stderr: bool): seq<byte> {
    if messages == [] then [] else
      AllOf(messages[..|messages| - 1], stderr) +
      (if messages[|messages| - 1].stderr == stderr then messages[|messages| - 1].data else [])
  }

  lemma {:induction false} SentAppend(a: seq<Event>, b: seq<Event>, stderr: bool)
    ensures Sent(a + b, stderr) == Sent(a, stderr) + Sent(b, stderr)
    decreases |a|
  {
    if a == [] {
      assert a + b == b;
    } else {
      assert (a + b)[1..] == a[1..] + b;
      SentAppend(a[1..], b, stderr);
    }
  }

  lemma {:induction false} NothingSent(own: seq<Event>, stderr: bool)
    requires NoReceive(own)
    ensures Sent(own, stderr) == []
    decreases |own|
  {
    if own != [] {
      NothingSent(own[1..], stderr);
    }
  }

  /** Whatever the channel sends, in messages no longer than a read may be, can be read back whole: there is a run
      after which everything sent is in the results of the reads. */
  lemma {:induction false} EverythingPasses(messages: seq<Message>) returns (events: seq<Event>, s: State)
    requires forall i :: 0 <= i < |messages| ==> |messages[i].data| <= MAX_READ_BYTES
    ensures Runs(START, events, s) && Quiet(s) && (forall id :: id in s.readers ==> id < |messages|)
    ensures Sent(events, false) == AllOf(messages, false) && Sent(events, true) == AllOf(messages, true)
    ensures Results(s, Served(START, events), false) == AllOf(messages, false)
    ensures Results(s, Served(START, events), true) == AllOf(messages, true)
    decreases |messages|
  {
    if messages == [] {
      events, s := [], START;
    } else {
      var n, m := |messages| - 1, messages[|messages| - 1];
      var before, s0 := EverythingPasses(messages[..n]);
      events, s := MessagePasses(before, s0, m, n);
      var own :| events == before + ([Receive(m.data, m.stderr)] + own) && NoReceive(own);
      SentOnce(before, m, own, false);
      SentOnce(before, m, own, true);
    }
    OutputConserved(events, s);
    hide Runs, Results, Served, Sent, AllOf;
    NothingQueued(Results(s, Served(START, events), false));
    NothingQueued(Results(s, Served(START, events), true));
  }

  lemma NothingQueued(results: seq<byte>)
    ensures results + [] + [] == results
  {
  }

  lemma SentOnce(before: seq<Event>, m: Message, own: seq<Event>, stderr: bool)
    requires NoReceive(own)
    ensures Sent(before + ([Receive(m.data, m.stderr)] + own), stderr) ==
      Sent(before, stderr) + (if m.stderr == stderr then m.data else [])
  {
    var arrival := [Receive(m.data, m.stderr)];
    SentAppend(before, arrival + own, stderr);
    SentAppend(arrival, own, stderr);
    NothingSent(own, stderr);
    assert arrival[1..] == [];
    assert Sent(arrival, stderr) == (if m.stderr == stderr then m.data else []) + [];
  }

  /** A message in hand is given up only after a close. */
  lemma ClosedEnds(s: State)
    requires s.producer.AtCheck? && s.producer.m.offset < |s.producer.m.data|
    ensures Enabled(s, Produce) && (Step(s, Produce).producer.Ended? <==> s.closed)
  {
  }

  /** The session counts as closed exactly when some close has stored the flag. */
  lemma {:induction false} CloseStored(s: State, events: seq<Event>, s': State)
    requires Runs(s, events, s') && (s.closed <==> SomeStored(s))
    ensures s'.closed <==> SomeStored(s')
    decreases |events|
  {
    if events != [] {
      CloseStoredStep(s, events[0]);
      hide Step, Enabled;
      CloseStored(Step(s, events[0]), events[1..], s');
    }
  }

  ghost predicate SomeStored(s: State) {
    exists id :: id in s.closers && !s.closers[id].Storing?
  }

  lemma CloseStoredStep(s: State, e: Event)
    requires Enabled(s, e) && (s.closed <==> SomeStored(s))
    ensures Step(s, e).closed <==> SomeStored(Step(s, e))
  {
    var s' := Step(s, e);
    DataFacts(s, e);
    if SomeStored(s) {
      var id :| id in s.closers && !s.closers[id].Storing?;
      if e.Close? && e.id == id {
        assert id in s'.closers && !s'.closers[id].Storing?;
      } else {
        OtherClosers(s, e, id);
      }
    } else if e.Close? {
      assert e.id in s'.closers && !s'.closers[e.id].Storing?;
    } else if SomeStored(s') {
      var id :| id in s'.closers && !s'.closers[id].Storing?;
      if id in s.closers {
        OtherClosers(s, e, id);
      } else {
        NewClosers(s, e, id);
      }
    }
  }

  lemma NewClosers(s: State, e: Event, id: nat)
    requires Enabled(s, e) && id !in s.closers && id in Step(s, e).closers
    ensures Step(s, e).closers[id].Storing?
  {
    hide Accept, LockedRead, ProduceStep, ReadStep;
    if e.Produce? {
      ProduceFrame(s);
    } else if e.Read? {
      ReadFrame(s, e.id, e.expired, e.id);
    }
  }

  /** A producer is never left asleep with room in the buffer, nor a read with data or after a close. */
  lemma NoLostWakeup(events: seq<Event>, s: State)
    requires Runs(START, events, s)
    ensures s.producer.Waiting? && !Enabled(s, Produce) ==> Len(s.queues) == MAX_BUFFER_BYTES || SomeoneReleasing(s)
    ensures forall id, b :: id in s.readers && s.readers[id].Sleeping? && !s.readers[id].buffered && !Enabled(s, Read(id, b)) ==>
      (Len(s.queues) == 0 || s.producer.Notifying?) && (!s.closed || CloserOwesReads(s))
  {
    Reachable(events, s);
    assert Bounded(s);
    forall id, b | id in s.readers && s.readers[id].Sleeping? && !s.readers[id].buffered && !Enabled(s, Read(id, b))
      ensures (Len(s.queues) == 0 || s.producer.Notifying?) && (!s.closed || CloserOwesReads(s))
    {
      assert ReaderSafe(s, s.readers[id]);
    }
  }

  /** Stranded: the session is closed and nobody is about to wake the sleeping producer. */
  ghost predicate Stranded(s: State) {
    s.producer.Waiting? && !Enabled(s, Produce) && s.closed && !CloserOwesProducer(s) && !SomeoneReleasing(s)
  }

  /** A close strands the producer only if its final wakeup fell between the producer's check of
      the flag and its subscription, with the buffer full. */
  lemma StrandedOnlyBySlip(events: seq<Event>, s: State)
    requires Runs(START, events, s) && Stranded(s)
    ensures s.slipped && Len(s.queues) == MAX_BUFFER_BYTES
  {
    Reachable(events, s);
    assert Bounded(s);
  }

  /** And then it does: from a slip with a full buffer, the producer's next two actions strand it. */
  lemma SlipStrands(events: seq<Event>, s: State)
    requires Runs(START, events, s) && s.producer.Checked? && s.slipped && s.closed
    requires Len(s.queues) == MAX_BUFFER_BYTES && !CloserOwesProducer(s) && !SomeoneReleasing(s)
    ensures Enabled(s, Produce) && Enabled(Step(s, Produce), Produce) && Stranded(Step(Step(s, Produce), Produce))
  {
    var s2 := Step(Step(s, Produce), Produce);
    assert s2.closers == s.closers && s2.readers == s.readers;
  }

  lemma {:induction false} RunsThen(s: State, events: seq<Event>, s': State, e: Event)
    requires Runs(s, events, s') && Enabled(s', e)
    ensures Runs(s, events + [e], Step(s', e))
    decreases |events|
  {
    hide Step, Enabled;
    if events != [] {
      RunsThen(Step(s, events[0]), events[1..], s', e);
      assert (events + [e])[1..] == events[1..] + [e];
    } else {
      assert [e][1..] == [];
      assert Runs(Step(s, e), [], Step(s', e));
    }
  }

  /** A burst larger than the buffer fills it and leaves the producer past its check again. */
  lemma BurstFills() returns (events: seq<Event>, s: State)
    ensures Runs(START, events, s) && s.producer.Checked? && Len(s.queues) == MAX_BUFFER_BYTES
    ensures !s.closed && s.closers == map[] && s.readers == map[]
  {
    var m;
    m, events, s := BurstArrives();
    hide Runs;
    s, events := After(START, events, s, Produce);
    assert s.producer == Notifying(m.(offset := MAX_BUFFER_BYTES)) && Len(s.queues) == MAX_BUFFER_BYTES;
    s, events := After(START, events, s, Produce);
    s, events := After(START, events, s, Produce);
  }

  lemma BurstArrives() returns (m: Message, events: seq<Event>, s: State)
    ensures Runs(START, events, s) && m.offset == 0 && |Rest(m)| == MAX_BUFFER_BYTES + 1 && !m.stderr
    ensures s.producer == Subscribed(m, 0) && s.queues == Queues([], [])
    ensures !s.closed && s.closers == map[] && s.readers == map[]
  {
    var burst := seq(MAX_BUFFER_BYTES + 1, i => 0);
    m := Message(burst, false, 0);
    assert Rest(m) == burst;
    assert Runs(START, [], START);
    s, events := After(START, [], START, Receive(burst, false));
    s, events := After(START, events, s, Produce);
    s, events := After(START, events, s, Produce);
  }

  /** A complete close in the window strands the producer. */
  lemma CloseInWindow(events: seq<Event>, s: State) returns (events': seq<Event>, s': State)
    requires Runs(START, events, s) && s.producer.Checked? && Len(s.queues) == MAX_BUFFER_BYTES
    requires !s.closed && s.closers == map[] && s.readers == map[]
    ensures Runs(START, events', s') && Stranded(s') && s'.readers == map[] && s'.closers == map[0 := Closed]
  {
    s', events' := After(START, events, s, StartClose(0));
    s', events' := After(START, events', s', Close(0));
    hide Step;
    events', s' := WakeInWindow(events', s');
    events', s' := WaitInWindow(events', s');
  }

  lemma WakeInWindow(events: seq<Event>, s: State) returns (events': seq<Event>, s': State)
    requires Runs(START, events, s) && s.producer.Checked? && s.closed && s.closers == map[0 := WakingReads]
    ensures Runs(START, events', s') && s'.closed && s'.slipped && s'.closers == map[0 := Closed]
    ensures s'.producer == s.producer && s'.queues == s.queues && s'.readers == s.readers
  {
    s', events' := After(START, events, s, Close(0));
    s', events' := After(START, events', s', Close(0));
  }

  lemma WaitInWindow(events: seq<Event>, s: State) returns (events': seq<Event>, s': State)
    requires Runs(START, events, s) && s.producer.Checked? && Len(s.queues) == MAX_BUFFER_BYTES
    requires s.closed && s.slipped && s.closers == map[0 := Closed] && s.readers == map[]
    ensures Runs(START, events', s') && Stranded(s') && s'.readers == map[] && s'.closers == map[0 := Closed]
  {
    SlipStrands(events, s);
    s', events' := After(START, events, s, Produce);
    s', events' := After(START, events', s', Produce);
  }

  /** No read and no close is unfinished. */
  ghost predicate AllReturned(s: State) {
    && (forall id :: id in s.readers ==> s.readers[id].Returned?)
    && (forall id :: id in s.closers ==> s.closers[id].Closed?)
  }

  /** Nothing new begins: a closed session is gone from the registry. */
  ghost predicate NothingBegins(events: seq<Event>) {
    forall i :: 0 <= i < |events| ==> !events[i].StartRead? && !events[i].StartClose?
  }

  /** Once every read and close has returned, a stranded producer sleeps for ever. */
  lemma {:induction false} StrandedForever(s: State, events: seq<Event>, s': State)
    requires Stranded(s) && AllReturned(s) && Runs(s, events, s') && NothingBegins(events)
    ensures s'.producer == s.producer && Stranded(s') && AllReturned(s')
    decreases |events|
  {
    if events != [] {
      OnlyWritesRemain(s, events[0]);
      StrandedForever(Step(s, events[0]), events[1..], s');
    }
    hide Step;
  }

  lemma OnlyWritesRemain(s: State, e: Event)
    requires Stranded(s) && AllReturned(s) && Enabled(s, e) && !e.StartRead? && !e.StartClose?
    ensures e.Write? && Step(s, e) == s.(interactive := true) && Stranded(Step(s, e)) && AllReturned(Step(s, e))
  {
    hide ProduceStep, ReadStep, CloseStep;
  }

  /** The hole is real: a run in which nobody ever read, and after which nobody is left. */
  lemma StrandedIsReachable() returns (events: seq<Event>, s: State)
    ensures Runs(START, events, s) && Stranded(s) && AllReturned(s) && s.readers == map[]
  {
    events, s := BurstFills();
    events, s := CloseInWindow(events, s);
  }

  lemma After(first: State, events: seq<Event>, s: State, e: Event) returns (s': State, events': seq<Event>)
    requires Runs(first, events, s) && Enabled(s, e)
    ensures s' == Step(s, e) && Runs(first, events', s') && events' == events + [e]
  {
    s', events' := Step(s, e), events + [e];
    RunsThen(first, events, s, e);
  }
}
