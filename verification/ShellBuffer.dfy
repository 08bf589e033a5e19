/** The shell service's output buffer: a deque of chunks with a byte counter, owned by one process at
    a time. */
module ShellBuffer {
  import opened Basics

  const MAX_OUTPUT_BYTES: nat := 1024 * 1024
  const MAX_REPLY_BYTES: nat := 64 * 1024

  /** A byte, with the number of the process that wrote it. */
  datatype Output = Output(origin: nat, value: byte)

  function Flatten(chunks: seq<seq<Output>>): seq<Output> {
    if chunks == [] then [] else chunks[0] + Flatten(chunks[1..])
  }

  function Sum(chunks: seq<seq<Output>>): nat {
    if chunks == [] then 0 else |chunks[0]| + Sum(chunks[1..])
  }

  lemma {:induction false} SumIsLength(chunks: seq<seq<Output>>)
    ensures Sum(chunks) == |Flatten(chunks)|
  {
    if chunks != [] {
      SumIsLength(chunks[1..]);
    }
  }

  lemma {:induction false} FlattenAppend(chunks: seq<seq<Output>>, chunk: seq<Output>)
    ensures Flatten(chunks + [chunk]) == Flatten(chunks) + chunk
  {
    if chunks == [] {
      assert [chunk][1..] == [];
      assert Flatten([chunk]) == chunk + [];
    } else {
      FlattenAppend(chunks[1..], chunk);
      assert (chunks + [chunk])[1..] == chunks[1..] + [chunk];
      assert chunks[0] + (Flatten(chunks[1..]) + chunk) == chunks[0] + Flatten(chunks[1..]) + chunk;
    }
  }

  lemma FlattenFront(chunks: seq<seq<Output>>)
    requires chunks != []
    ensures Flatten(chunks) == chunks[0] + Flatten(chunks[1..])
  {
  }

  function Clamped(maxBytes: int): nat {
    if maxBytes < 1 then 1 else Min(maxBytes, MAX_REPLY_BYTES)
  }

  // ---- The buffer as a value ----

  /** `process` is the process that owns the buffer; processes are numbered from 1 as they start. */
  datatype Buffer = Buffer(chunks: seq<seq<Output>>, bytes: int, process: Option<nat>, started: nat)

  const START := Buffer([], 0, None, 0)

  ghost predicate Valid(b: Buffer) {
    b.bytes == Sum(b.chunks) <= MAX_OUTPUT_BYTES
  }

  /** How many of the oldest chunks must go to respect the cap. */
  function Excess(chunks: seq<seq<Output>>, bytes: int): (k: nat)
    ensures k <= |chunks|
  {
    if bytes > MAX_OUTPUT_BYTES && chunks != [] then 1 + Excess(chunks[1..], bytes - |chunks[0]|) else 0
  }

  function Trimmed(chunks: seq<seq<Output>>): seq<seq<Output>> {
    chunks[Excess(chunks, Sum(chunks))..]
  }

  function Appended(b: Buffer, process: nat, chunk: seq<Output>): Buffer {
    if b.process != Some(process) then b else
      var kept := Trimmed(b.chunks + [chunk]);
      b.(chunks := kept, bytes := Sum(kept))
  }

  /** The chunks left after taking `n` bytes; the last one taken may be split. */
  function AfterTaking(chunks: seq<seq<Output>>, n: nat): seq<seq<Output>> {
    if chunks == [] || n == 0 then chunks
    else if |chunks[0]| <= n then AfterTaking(chunks[1..], n - |chunks[0]|)
    else [chunks[0][n..]] + chunks[1..]
  }

  function Taken(chunks: seq<seq<Output>>, n: nat): seq<Output> {
    Flatten(chunks)[..Min(n, |Flatten(chunks)|)]
  }

  function AfterRead(b: Buffer, maxBytes: int): Buffer {
    var left := AfterTaking(b.chunks, Clamped(maxBytes));
    b.(chunks := left, bytes := Sum(left))
  }

  /** Starting when the owner is still alive changes nothing; otherwise the buffer is emptied even if
      the new process cannot be started. */
  function AfterStart(b: Buffer, alive: bool, ok: bool): Buffer {
    if b.process.Some? && alive then b
    else if ok then Buffer([], 0, Some(b.started + 1), b.started + 1)
    else b.(chunks := [], bytes := 0)
  }

  // ---- The service, changed in place under its lock ----

  class ShellService {
    var shellOutput: seq<seq<Output>>
    var shellOutputBytes: int
    var shellProcess: Option<nat>
    var started: nat

    function Value(): Buffer
      reads this
    {
      Buffer(shellOutput, shellOutputBytes, shellProcess, started)
    }

    constructor ()
      ensures Value() == START
    {
      shellOutput, shellOutputBytes, shellProcess, started := [], 0, None, 0;
    }

    method AppendShellOutput(process: nat, chunk: seq<Output>)
      requires Valid(Value())
      modifies this`shellOutput, this`shellOutputBytes
      ensures Valid(Value()) && Value() == Appended(old(Value()), process, chunk)
      ensures shellProcess != Some(process) ==> Value() == old(Value())
      ensures shellProcess == Some(process) ==>
        exists k :: 0 <= k <= |old(shellOutput)| + 1 && shellOutput == (old(shellOutput) + [chunk])[k..]
    {
      if shellProcess != Some(process) {
        return;
      }
      SumAppend(shellOutput, chunk);
      shellOutput := shellOutput + [chunk];
      shellOutputBytes := shellOutputBytes + |chunk|;
      DropOldest();
    }

    /** Drops the oldest chunks until the rest fits the cap. */
    method DropOldest()
      requires shellOutputBytes == Sum(shellOutput)
      modifies this`shellOutput, this`shellOutputBytes
      ensures shellOutput == Trimmed(old(shellOutput)) && shellOutputBytes == Sum(shellOutput) <= MAX_OUTPUT_BYTES
    {
      ghost var all, k := shellOutput, 0;
      hide Sum;
      while shellOutputBytes > MAX_OUTPUT_BYTES && shellOutput != []
        invariant 0 <= k <= |all| && shellOutput == all[k..] && shellOutputBytes == Sum(shellOutput)
        invariant Excess(all, Sum(all)) == k + Excess(shellOutput, shellOutputBytes)
        decreases |shellOutput|
      {
        SumFront(shellOutput);
        shellOutputBytes := shellOutputBytes - |shellOutput[0]|;
        shellOutput := shellOutput[1..];
        k := k + 1;
      }
      SumOfNone();
    }

    method ReadShellOutput(maxBytes: int) returns (reply: seq<Output>)
      requires Valid(Value())
      modifies this`shellOutput, this`shellOutputBytes
      ensures Valid(Value()) && Value() == AfterRead(old(Value()), maxBytes)
      ensures reply == Taken(old(shellOutput), Clamped(maxBytes))
      ensures reply + Flatten(shellOutput) == Flatten(old(shellOutput))
      ensures var most := if maxBytes < 1 then 1 else if maxBytes > 64 * 1024 then 64 * 1024 else maxBytes;
        |reply| == Min(most, old(shellOutputBytes))
    {
      ReadMeans(shellOutput, maxBytes);
      hide Flatten, Sum, AfterTaking;
      var safeMaximum := Clamped(maxBytes);
      hide Clamped;
      ghost var all := Flatten(shellOutput);
      reply := [];
      while shellOutput != [] && |reply| < safeMaximum
        invariant |reply| <= safeMaximum && reply + Flatten(shellOutput) == all
        invariant shellOutputBytes == Sum(shellOutput) <= MAX_OUTPUT_BYTES
        invariant AfterTaking(shellOutput, safeMaximum - |reply|) == AfterTaking(old(shellOutput), safeMaximum)
        decreases |shellOutput|, safeMaximum - |reply|
      {
        hide Taken;
        var chunk := shellOutput[0];
        SumFront(shellOutput);
        TakeStep(reply, shellOutput, safeMaximum - |reply|);
        shellOutput := shellOutput[1..];
        shellOutputBytes := shellOutputBytes - |chunk|;
        var remaining := safeMaximum - |reply|;
        if |chunk| <= remaining {
          reply := reply + chunk;
        } else {
          reply := reply + chunk[..remaining];
          var unused := chunk[remaining..];
          shellOutput := [unused] + shellOutput;
          shellOutputBytes := shellOutputBytes + |unused|;
        }
      }
      ReadEnds(reply, shellOutput, all, safeMaximum);
    }

    /** `alive` is whether the owner is running, `ok` whether the system starts a new process. */
    method StartShell(alive: bool, ok: bool) returns (running: bool)
      requires Valid(Value())
      modifies this
      ensures Valid(Value()) && Value() == AfterStart(old(Value()), alive, ok)
      ensures running == ((old(shellProcess).Some? && alive) || ok)
      ensures old(shellProcess).Some? && alive ==> Value() == old(Value())
      ensures !(old(shellProcess).Some? && alive) ==>
        && shellOutput == [] && shellOutputBytes == 0 && started == old(started) + (if ok then 1 else 0)
        && shellProcess == (if ok then Some(started) else old(shellProcess))
    {
      if shellProcess.Some? && alive {
        return true;
      }
      shellOutput := [];
      shellOutputBytes := 0;
      if !ok {
        return false;
      }
      started := started + 1;
      shellProcess := Some(started);
      running := true;
    }

    /** Stopping gives up ownership but keeps what was buffered. */
    method StopShell()
      modifies this`shellProcess
      ensures Value() == old(Value()).(process := None)
    {
      shellProcess := None;
    }

    /** What a reader thread does when its process's output ends. */
    method ReaderEnds(process: nat)
      modifies this`shellProcess
      ensures Value() == if old(shellProcess) == Some(process) then old(Value()).(process := None) else old(Value())
    {
      if shellProcess == Some(process) {
        shellProcess := None;
      }
    }
  }

  lemma SumFront(chunks: seq<seq<Output>>)
    requires chunks != []
    ensures Sum(chunks) == |chunks[0]| + Sum(chunks[1..])
  {
  }

  lemma SumOfNone()
    ensures Sum([]) == 0
  {
  }

  lemma SumAppend(chunks: seq<seq<Output>>, chunk: seq<Output>)
    ensures Sum(chunks + [chunk]) == Sum(chunks) + |chunk|
  {
    FlattenAppend(chunks, chunk);
    SumIsLength(chunks + [chunk]);
    SumIsLength(chunks);
    hide Sum, Flatten;
  }

  /** One turn of the read loop. */
  lemma TakeStep(reply: seq<Output>, chunks: seq<seq<Output>>, n: nat)
    requires chunks != [] && n > 0
    ensures |chunks[0]| <= n ==> reply + chunks[0] + Flatten(chunks[1..]) == reply + Flatten(chunks)
    ensures |chunks[0]| <= n ==> AfterTaking(chunks[1..], n - |chunks[0]|) == AfterTaking(chunks, n)
    ensures |chunks[0]| > n ==> reply + chunks[0][..n] + Flatten([chunks[0][n..]] + chunks[1..]) == reply + Flatten(chunks)
    ensures |chunks[0]| > n ==> AfterTaking([chunks[0][n..]] + chunks[1..], 0) == AfterTaking(chunks, n)
    ensures |chunks[0]| > n ==> Sum([chunks[0][n..]] + chunks[1..]) == Sum(chunks) - n
  {
    FlattenFront(chunks);
    if |chunks[0]| > n {
      var rest := [chunks[0][n..]] + chunks[1..];
      assert rest[1..] == chunks[1..];
      FlattenFront(rest);
      assert chunks[0] == chunks[0][..n] + chunks[0][n..];
    }
  }

  /** What is left is what was not taken. */
  lemma {:induction false} TakenThenLeft(chunks: seq<seq<Output>>, n: nat)
    ensures Taken(chunks, n) + Flatten(AfterTaking(chunks, n)) == Flatten(chunks)
    ensures Sum(AfterTaking(chunks, n)) <= Sum(chunks)
    decreases |chunks|
  {
    SumIsLength(chunks);
    SumIsLength(AfterTaking(chunks, n));
    if chunks != [] && n > 0 {
      FlattenFront(chunks);
      if |chunks[0]| <= n {
        TakenThenLeft(chunks[1..], n - |chunks[0]|);
        assert Taken(chunks, n) == chunks[0] + Taken(chunks[1..], n - |chunks[0]|);
      } else {
        var rest := [chunks[0][n..]] + chunks[1..];
        assert rest[1..] == chunks[1..];
        FlattenFront(rest);
        assert Taken(chunks, n) == chunks[0][..n];
      }
    }
  }

  lemma {:induction false} FlattenSplit(chunks: seq<seq<Output>>, k: nat)
    requires k <= |chunks|
    ensures Flatten(chunks[..k]) + Flatten(chunks[k..]) == Flatten(chunks)
  {
    if k == 0 {
      assert chunks[..0] == [] && chunks[0..] == chunks;
      assert [] + Flatten(chunks) == Flatten(chunks);
    } else {
      FlattenSplit(chunks[1..], k - 1);
      assert chunks[..k][1..] == chunks[1..][..k - 1] && chunks[k..] == chunks[1..][k - 1..];
      FlattenFront(chunks[..k]);
      Regroup(chunks[0], Flatten(chunks[1..][..k - 1]), Flatten(chunks[k..]));
    }
  }

  lemma ReadEnds(reply: seq<Output>, rest: seq<seq<Output>>, all: seq<Output>, n: nat)
    requires |reply| <= n && reply + Flatten(rest) == all && (rest == [] || |reply| == n)
    ensures reply == all[..Min(n, |all|)] && AfterTaking(rest, n - |reply|) == rest
  {
  }

  /** A read hands out the front, at least one byte and at most 64 KiB if there are as many. */
  lemma ReadMeans(chunks: seq<seq<Output>>, maxBytes: int)
    ensures var n := Clamped(maxBytes);
      var most := if maxBytes < 1 then 1 else if maxBytes > 64 * 1024 then 64 * 1024 else maxBytes;
      && Taken(chunks, n) + Flatten(AfterTaking(chunks, n)) == Flatten(chunks)
      && |Taken(chunks, n)| == Min(most, Sum(chunks))
  {
    TakenThenLeft(chunks, Clamped(maxBytes));
    SumIsLength(chunks);
    hide Flatten, Sum, AfterTaking;
  }

  /** The oldest chunks go first, until the rest fits. */
  lemma {:induction false} TrimmedFits(chunks: seq<seq<Output>>)
    ensures Sum(Trimmed(chunks)) <= MAX_OUTPUT_BYTES
  {
    if chunks != [] && Sum(chunks) > MAX_OUTPUT_BYTES {
      var rest := chunks[1..];
      TrimmedFits(rest);
      assert chunks[1 + Excess(rest, Sum(rest))..] == rest[Excess(rest, Sum(rest))..];
    } else {
      assert chunks[0..] == chunks;
    }
  }

  /** No more chunks go than the cap demands: with any one of them kept, the rest would not fit. */
  lemma {:induction false} TrimmedIsMinimal(chunks: seq<seq<Output>>, j: nat)
    requires j < Excess(chunks, Sum(chunks))
    ensures Sum(chunks[j..]) > MAX_OUTPUT_BYTES
  {
    if j > 0 {
      TrimmedIsMinimal(chunks[1..], j - 1);
      assert chunks[j..] == chunks[1..][j - 1..];
    } else {
      assert chunks[0..] == chunks;
    }
  }

  // ---- Runs ----

  datatype Event =
    | Start(alive: bool, ok: bool) | Stop | Ends(process: nat)
    | Append(process: nat, data: seq<byte>) | Read(maxBytes: int)

  /** What has left the buffer. */
  datatype Gone = Delivered(data: seq<Output>) | Dropped(data: seq<Output>)

  /** `received` and `gone` are the history since the buffer was last emptied. */
  datatype State = State(buffer: Buffer, received: seq<Output>, gone: seq<Gone>)

  function Written(process: nat, data: seq<byte>): seq<Output> {
    seq(|data|, i requires 0 <= i < |data| => Output(process, data[i]))
  }

  function Overflow(b: Buffer, chunk: seq<Output>): seq<Output> {
    var all := b.chunks + [chunk];
    Flatten(all[..Excess(all, Sum(all))])
  }

  function Received(s: State, process: nat, chunk: seq<Output>): State {
    if s.buffer.process != Some(process) then s else
      State(Appended(s.buffer, process, chunk), s.received + chunk, s.gone + [Dropped(Overflow(s.buffer, chunk))])
  }

  function Step(s: State, e: Event): State {
    match e
    case Start(alive, ok) =>
      if s.buffer.process.Some? && alive then s else State(AfterStart(s.buffer, alive, ok), [], [])
    case Stop => s.(buffer := s.buffer.(process := None))
    case Ends(p) => if s.buffer.process == Some(p) then s.(buffer := s.buffer.(process := None)) else s
    case Append(p, data) => Received(s, p, Written(p, data))
    case Read(maxBytes) =>
      s.(buffer := AfterRead(s.buffer, maxBytes), gone := s.gone + [Delivered(Taken(s.buffer.chunks, Clamped(maxBytes)))])
  }

  function Run(s: State, events: seq<Event>): State
    decreases |events|
  {
    if events == [] then s else Run(Step(s, events[0]), events[1..])
  }

  function AllGone(gone: seq<Gone>): seq<Output> {
    if gone == [] then [] else AllGone(gone[..|gone| - 1]) + gone[|gone| - 1].data
  }

  ghost predicate From(output: seq<Output>, process: nat) {
    forall i :: 0 <= i < |output| ==> output[i].origin == process
  }

  ghost predicate Inv(s: State) {
    && Valid(s.buffer)
    && (s.buffer.process.Some? ==> s.buffer.process.value == s.buffer.started)
    && From(s.received, s.buffer.started)
    && s.received == AllGone(s.gone) + Flatten(s.buffer.chunks)
  }

  lemma GoneNext(gone: seq<Gone>, g: Gone)
    ensures AllGone(gone + [g]) == AllGone(gone) + g.data
  {
    assert (gone + [g])[..|gone|] == gone;
  }

  /** Moving bytes out of the buffer in order. */
  lemma Moved(before: seq<Output>, out: seq<Output>, left: seq<Output>, all: seq<Output>, received: seq<Output>)
    requires out + left == all && received == before + all
    ensures received == before + out + left
  {
  }

  lemma ReceivedKeeps(s: State, process: nat, chunk: seq<Output>)
    requires Inv(s) && From(chunk, process)
    ensures Inv(Received(s, process, chunk))
  {
    if s.buffer.process == Some(process) {
      var all := s.buffer.chunks + [chunk];
      FlattenAppend(s.buffer.chunks, chunk);
      TrimmedFits(all);
      FlattenSplit(all, Excess(all, Sum(all)));
      GoneNext(s.gone, Dropped(Overflow(s.buffer, chunk)));
      Regroup(AllGone(s.gone), Flatten(s.buffer.chunks), chunk);
      Moved(AllGone(s.gone), Overflow(s.buffer, chunk), Flatten(Trimmed(all)), Flatten(all), s.received + chunk);
      hide Flatten, Trimmed, Excess, Sum, AllGone, Overflow;
    }
    hide Flatten, Sum, AllGone;
  }

  lemma Regroup(a: seq<Output>, b: seq<Output>, c: seq<Output>)
    ensures a + b + c == a + (b + c)
  {
  }

  lemma ReadKeeps(s: State, maxBytes: int)
    requires Inv(s)
    ensures Inv(Step(s, Read(maxBytes)))
  {
    var n := Clamped(maxBytes);
    TakenThenLeft(s.buffer.chunks, n);
    GoneNext(s.gone, Delivered(Taken(s.buffer.chunks, n)));
    hide Flatten, Taken, AfterTaking, Sum, AllGone, Clamped;
    Moved(AllGone(s.gone), Taken(s.buffer.chunks, n), Flatten(AfterTaking(s.buffer.chunks, n)),
          Flatten(s.buffer.chunks), s.received);
  }

  lemma {:induction false} RunKeeps(s: State, events: seq<Event>)
    requires Inv(s)
    ensures Inv(Run(s, events))
    decreases |events|
  {
    if events != [] {
      match events[0] {
        case Append(p, data) => ReceivedKeeps(s, p, Written(p, data));
        case Read(maxBytes) => ReadKeeps(s, maxBytes);
        case _ =>
      }
      assert Inv(Step(s, events[0])) by {
        hide Received, AfterRead, Taken;
      }
      hide Step, Inv;
      RunKeeps(Step(s, events[0]), events[1..]);
    }
  }

  // ---- Main results ----

  const INITIAL := State(START, [], [])

  lemma Reachable(events: seq<Event>)
    ensures Inv(Run(INITIAL, events))
  {
    assert Inv(INITIAL);
    RunKeeps(INITIAL, events);
    hide Run, Inv;
  }

  /** Between calls the counter is the sum of the chunk sizes and respects the cap. */
  lemma CounterIsSum(events: seq<Event>)
    ensures var b := Run(INITIAL, events).buffer; b.bytes == |Flatten(b.chunks)| <= MAX_OUTPUT_BYTES
  {
    Reachable(events);
    SumIsLength(Run(INITIAL, events).buffer.chunks);
    hide Run, Flatten, Sum;
  }

  lemma {:induction false} RunThen(s: State, events: seq<Event>, e: Event)
    ensures Run(s, events + [e]) == Step(Run(s, events), e)
    decreases |events|
  {
    hide Step;
    if events == [] {
      assert [] + [e] == [e] && [e][1..] == [];
      assert Run(Step(s, e), []) == Step(s, e);
    } else {
      assert (events + [e])[1..] == events[1..] + [e];
      RunThen(Step(s, events[0]), events[1..], e);
    }
  }

  /** How many processes have been started. */
  ghost function Started(events: seq<Event>): nat {
    if events == [] then 0 else
      var before, e := events[..|events| - 1], events[|events| - 1];
      Started(before) + if Replaces(Owner(before), e) && e.ok then 1 else 0
  }

  /** A start takes effect unless the owner is alive. */
  predicate Replaces(owner: Option<nat>, e: Event) {
    e.Start? && !(e.alive && owner.Some?)
  }

  /** The process that owns the buffer: the last one started, until it ends or the shell is stopped. */
  ghost function Owner(events: seq<Event>): Option<nat> {
    if events == [] then None else
      var before, e := events[..|events| - 1], events[|events| - 1];
      if e.Stop? || (e.Ends? && Owner(before) == Some(e.process)) then None
      else if Replaces(Owner(before), e) && e.ok then Some(Started(before) + 1)
      else Owner(before)
  }

  /** What the owners have written since a start last took effect. */
  ghost function WrittenSince(events: seq<Event>): seq<Output> {
    if events == [] then [] else
      var before, e := events[..|events| - 1], events[|events| - 1];
      if Replaces(Owner(before), e) then []
      else if e.Append? && Owner(before) == Some(e.process) then WrittenSince(before) + Written(e.process, e.data)
      else WrittenSince(before)
  }

  /** The owner, the number of starts and the bytes received are what the events make them. */
  lemma {:induction false} EventsDecide(events: seq<Event>)
    ensures var s := Run(INITIAL, events);
      && s.buffer.process == Owner(events) && s.buffer.started == Started(events)
      && s.received == WrittenSince(events)
    decreases |events|
  {
    if events != [] {
      var before, e := events[..|events| - 1], events[|events| - 1];
      assert events == before + [e];
      RunThen(INITIAL, before, e);
      EventsDecide(before);
      hide Run, Appended, AfterRead, Written, Overflow, Taken;
    }
  }

  /** Everything the owners have written since a start last took effect has, in order, been delivered or dropped,
      or is still buffered. */
  lemma OutputConserved(events: seq<Event>)
    ensures var s := Run(INITIAL, events); WrittenSince(events) == AllGone(s.gone) + Flatten(s.buffer.chunks)
  {
    Reachable(events);
    EventsDecide(events);
    hide Run, WrittenSince;
  }

  /** A read hands out the oldest bytes, as many as it may, and nothing is dropped in it. */
  lemma ReadDelivers(events: seq<Event>, maxBytes: int)
    ensures var s := Run(INITIAL, events); var s' := Step(s, Read(maxBytes)); var all := Flatten(s.buffer.chunks);
      var most := if maxBytes < 1 then 1 else if maxBytes > 64 * 1024 then 64 * 1024 else maxBytes;
      var n := if |all| < most then |all| else most;
      && s'.gone == s.gone + [Delivered(all[..n])] && Flatten(s'.buffer.chunks) == all[n..]
      && s'.received == s.received && s'.buffer.process == s.buffer.process && s'.buffer.started == s.buffer.started
  {
    var s := Run(INITIAL, events);
    TakenThenLeft(s.buffer.chunks, Clamped(maxBytes));
    var all, taken := Flatten(s.buffer.chunks), Taken(s.buffer.chunks, Clamped(maxBytes));
    hide Run, Flatten, AfterTaking;
    assert all[|taken|..] == (taken + Flatten(AfterTaking(s.buffer.chunks, Clamped(maxBytes))))[|taken|..];
  }

  /** Output of the owner goes to the end; whole chunks are dropped at the front, and only when the cap demands it. */
  lemma AppendDrops(events: seq<Event>, data: seq<byte>)
    requires Owner(events).Some?
    ensures var p := Owner(events).value; var s := Run(INITIAL, events); var s' := Step(s, Append(p, data));
      var all := s.buffer.chunks + [Written(p, data)];
      exists k: nat {:trigger all[k..]} :: k <= |all| && s'.buffer.chunks == all[k..] && s'.gone == s.gone + [Dropped(Flatten(all[..k]))]
        && Sum(all[k..]) <= MAX_OUTPUT_BYTES && (k > 0 ==> Sum(all[k - 1..]) > MAX_OUTPUT_BYTES)
  {
    var p, s := Owner(events).value, Run(INITIAL, events);
    EventsDecide(events);
    var all := s.buffer.chunks + [Written(p, data)];
    var k := Excess(all, Sum(all));
    TrimmedFits(all);
    if k > 0 {
      TrimmedIsMinimal(all, k - 1);
    }
    hide Run, Flatten, Sum, Excess, Written, Owner;
    assert all[k..] == Trimmed(all);
  }

  /** Everything buffered or delivered since a start was written by the process started last: a
      replaced process never reaches a newer session. */
  lemma OnlyTheLatestProcess(events: seq<Event>)
    ensures var s := Run(INITIAL, events);
      && From(Flatten(s.buffer.chunks), s.buffer.started)
      && From(AllGone(s.gone), s.buffer.started)
  {
    Reachable(events);
    var s := Run(INITIAL, events);
    hide Run, Flatten, AllGone;
    FromParts(AllGone(s.gone), Flatten(s.buffer.chunks), s.buffer.started);
  }

  lemma FromParts(a: seq<Output>, b: seq<Output>, process: nat)
    requires From(a + b, process)
    ensures From(a, process) && From(b, process)
  {
    forall i | 0 <= i < |a| ensures a[i].origin == process {
      assert (a + b)[i] == a[i];
    }
    forall i | 0 <= i < |b| ensures b[i].origin == process {
      assert (a + b)[|a| + i] == b[i];
    }
  }
}
