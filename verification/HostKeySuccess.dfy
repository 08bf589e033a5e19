/** What a connection needs to succeed: runs in which every server answers well, and only the keys, and the caller's
    answer, decide. */
module HostKeySuccess {
  import opened Basics
  import opened HostKeys
  import opened HostKeyRuns

  /** A server: the key it shows, and the identities the request trusts for it. */
  datatype Server = Server(trusted: set<string>, key: HostKey)

  predicate Known(server: Server) {
    Identity(server.key) in server.trusted
  }

  /** A jump host that answers well at every point. */
  function HopEvents(c: nat, server: Server): seq<Event> {
    [if c == 0 then Connect(Hop, server.trusted) else ConnectThrough(c - 1, false, server.trusted),
     ServerKey(c, server.key), HandshakeEnds(c, true), AuthEnds(c, Complete)]
  }

  function HopsEvents(hops: seq<Server>): seq<Event> {
    if hops == [] then [] else HopsEvents(hops[..|hops| - 1]) + HopEvents(|hops| - 1, hops[|hops| - 1])
  }

  /** The server behind the jump hosts, answering well too. */
  function TargetEvents(c: nat, server: Server): seq<Event>
    requires c > 0
  {
    [ConnectThrough(c - 1, true, server.trusted), ServerKey(c, server.key), HandshakeEnds(c, true), AuthEnds(c, Complete),
     ChannelEnds(c, true)]
  }

  lemma Four(s: State, a: Event, b: Event, d: Event, e: Event)
    ensures Run(s, [a, b, d, e]) == Step(Step(Step(Step(s, a), b), d), e)
  {
    hide Step;
    assert [a, b, d, e][1..] == [b, d, e] && [b, d, e][1..] == [d, e] && [d, e][1..] == [e] && [e][1..] == [];
    assert Run(s, [a, b, d, e]) == Run(Step(s, a), [b, d, e]) == Run(Step(Step(s, a), b), [d, e]) == Run(Step(Step(Step(s, a), b), d), [e]);
  }

  /** `n` jump hosts are ready, one over the other. */
  ghost predicate HopsReady(s: State, n: nat) {
    && |s.conns| == n && s.sessions == map[] && s.nextId == 1
    && (n > 0 ==> s.conns[n - 1].phase.CarryingNext? && s.conns[n - 1].alive)
  }

  /** The way to the target has broken off at connection `j`. */
  ghost predicate Broken(s: State, j: nat) {
    |s.conns| == j + 1 && s.sessions == map[] && s.conns[j].phase.Closed?
  }

  lemma HopJoins(s: State, c: nat, server: Server)
    requires HopsReady(s, c)
    ensures var s' := Run(s, HopEvents(c, server)); if Known(server) then HopsReady(s', c + 1) else Broken(s', c)
  {
    var es := HopEvents(c, server);
    Four(s, es[0], es[1], es[2], es[3]);
    var s1 := Step(s, es[0]);
    assert |s1.conns| == c + 1 && s1.conns[c] == NewConn(Hop, s1.conns[c].via, server.trusted);
    Joins(s1, c, server, Hop);
  }

  /** A new jump host, or the target, up to its authentication. */
  lemma Joins(s: State, c: nat, server: Server, kind: Kind)
    requires |s.conns| == c + 1 && s.sessions == map[] && s.nextId == 1 && (kind.Hop? || kind.Target?)
    requires s.conns[c] == NewConn(kind, s.conns[c].via, server.trusted)
    ensures var s' := Step(Step(Step(s, ServerKey(c, server.key)), HandshakeEnds(c, true)), AuthEnds(c, Complete));
      && |s'.conns| == c + 1 && s'.sessions == map[] && s'.nextId == 1
      && (if Known(server) then s'.conns[c].phase == (if kind.Hop? then CarryingNext else Opening) && s'.conns[c].alive
          else s'.conns[c].phase.Closed?)
  {
    hide Identity;
    var s1 := Step(s, ServerKey(c, server.key));
    assert s1.conns[c].phase.Handshaking? && s1.conns[c].kind == kind && |s1.conns| == c + 1;
    assert s1.conns[c].alive == Known(server) && (Known(server) ==> s1.conns[c].accepted == [server.key]);
    hide Known, KeyShown;
    var s2 := Step(s1, HandshakeEnds(c, true));
    assert s2.conns[c].alive == s1.conns[c].alive && s2.conns[c].kind == kind && |s2.conns| == c + 1;
    assert s2.conns[c].phase == if Known(server) then Authenticating else Closed;
    hide AfterHandshake;
  }

  lemma BrokenStep(s: State, j: nat, e: Event)
    requires Broken(s, j)
    requires match e
      case ConnectThrough(hop, _, _) => hop >= j
      case ServerKey(c, _) => c > j
      case HandshakeEnds(c, _) => c > j
      case AuthEnds(c, _) => c > j
      case ChannelEnds(c, _) => c > j
      case _ => false
    ensures Step(s, e) == s
  {
  }

  lemma StaysBroken(s: State, j: nat, c: nat, server: Server)
    requires Broken(s, j) && c > j
    ensures Run(s, HopEvents(c, server)) == s && Run(s, TargetEvents(c, server)) == s
  {
    var es, ts := HopEvents(c, server), TargetEvents(c, server);
    hide Step, Broken;
    BrokenStep(s, j, es[0]);
    BrokenStep(s, j, ts[0]);
    BrokenStep(s, j, es[1]);
    BrokenStep(s, j, es[2]);
    BrokenStep(s, j, es[3]);
    BrokenStep(s, j, ts[4]);
    hide Run;
    Four(s, es[0], es[1], es[2], es[3]);
    Four(s, ts[0], ts[1], ts[2], ts[3]);
    assert ts == [ts[0], ts[1], ts[2], ts[3]] + [ts[4]];
    RunThen(s, [ts[0], ts[1], ts[2], ts[3]], ts[4]);
  }

  ghost predicate AllKnown(hops: seq<Server>) {
    forall i :: 0 <= i < |hops| ==> Known(hops[i])
  }

  ghost predicate BrokenBefore(s: State, n: nat) {
    exists j: nat :: j < n && Broken(s, j)
  }

  lemma {:induction false} HopsJoin(hops: seq<Server>)
    ensures var s := Run(START, HopsEvents(hops)); if AllKnown(hops) then HopsReady(s, |hops|) else BrokenBefore(s, |hops|)
    decreases |hops|
  {
    if hops != [] {
      var n := |hops| - 1;
      var before, s := hops[..n], Run(START, HopsEvents(hops[..n]));
      HopsJoin(before);
      RunSplit(START, HopsEvents(before), HopEvents(n, hops[n]));
      assert AllKnown(hops) <==> AllKnown(before) && Known(hops[n]) by {
        assert hops == before + [hops[n]];
      }
      hide Run, HopEvents, AllKnown, Known, HopsReady, Broken;
      if AllKnown(before) {
        HopJoins(s, n, hops[n]);
      } else {
        var j: nat :| j < n && Broken(s, j);
        StaysBroken(s, j, n, hops[n]);
      }
    }
  }

  /** When every server along the way answers well, a connection through any number of jump hosts opens a session
      if and only if each of them, and the target, shows a key trusted for it. */
  lemma JumpChainOpens(hops: seq<Server>, target: Server)
    requires hops != []
    ensures var s := Run(START, HopsEvents(hops) + TargetEvents(|hops|, target));
      s.sessions == if (forall i :: 0 <= i < |hops| ==> Known(hops[i])) && Known(target) then map[1 := |hops|] else map[]
  {
    var n, s := |hops|, Run(START, HopsEvents(hops));
    HopsJoin(hops);
    RunSplit(START, HopsEvents(hops), TargetEvents(n, target));
    hide Run, HopsEvents, Known, TargetEvents;
    if AllKnown(hops) {
      TargetOpens(s, n, target);
    } else {
      var j: nat :| j < n && Broken(s, j);
      StaysBroken(s, j, n, target);
    }
  }

  lemma TargetOpens(s: State, n: nat, target: Server)
    requires HopsReady(s, n) && n > 0
    ensures Run(s, TargetEvents(n, target)).sessions == if Known(target) then map[1 := n] else map[]
  {
    var ts := TargetEvents(n, target);
    assert ts == [ts[0], ts[1], ts[2], ts[3]] + [ts[4]];
    RunThen(s, [ts[0], ts[1], ts[2], ts[3]], ts[4]);
    Four(s, ts[0], ts[1], ts[2], ts[3]);
    var s1 := Step(s, ts[0]);
    assert |s1.conns| == n + 1 && s1.conns[n] == NewConn(Target, s1.conns[n].via, target.trusted);
    Joins(s1, n, target, Target);
    hide Run, Known, NewConn;
  }

  // ---- The same for a direct connection ----

  /** The server asks `rounds` more questions. */
  function Rounds(id: nat, rounds: nat): seq<Event> {
    if rounds == 0 then [] else Rounds(id, rounds - 1) + [ContinueAuth(id), ResponseEnds(0, Challenge)]
  }

  /** The server accepts the credentials, at once or after some questions put to the caller under `id`. */
  function GrantEvents(id: nat, rounds: nat): seq<Event> {
    if rounds == 0 then [AuthEnds(0, Complete)]
    else [AuthEnds(0, Challenge)] + Rounds(id, rounds - 1) + [ContinueAuth(id), ResponseEnds(0, Complete)]
  }

  /** A direct connection to a server that answers well; `approve` is the caller's answer, if asked. */
  function DirectEvents(server: Server, approve: bool, rounds: nat): seq<Event> {
    [Connect(Direct, server.trusted), ServerKey(0, server.key), HandshakeEnds(0, true)] +
    (if server.trusted == {} then [ContinueHostKey(1, approve)] else []) +
    (GrantEvents(if server.trusted == {} then 2 else 1, rounds) + [ChannelEnds(0, true)])
  }

  ghost predicate Alone(s: State, phase: Phase, nextId: nat) {
    && |s.conns| == 1 && s.conns[0].phase == phase && s.conns[0].alive && s.conns[0].kind.Direct?
    && s.sessions == map[] && s.nextId == nextId && s.auths == (if phase.AwaitingResponses? then map[phase.id := 0] else map[])
  }

  ghost predicate ShutOut(s: State) {
    |s.conns| == 1 && s.conns[0].phase.Closed? && s.sessions == map[] && s.auths == map[]
  }

  lemma Two(s: State, a: Event, b: Event)
    ensures Run(s, [a]) == Step(s, a) && Run(s, [a, b]) == Step(Step(s, a), b)
  {
    hide Step;
    assert [a, b][1..] == [b] && [a][1..] == [] && [b][1..] == [];
    assert Run(s, [a, b]) == Run(Step(s, a), [b]) == Run(Step(Step(s, a), b), []);
    assert Run(s, [a]) == Run(Step(s, a), []);
  }

  /** One question answered: the server asks again, or is content. */
  lemma OneRound(s: State, id: nat)
    requires Alone(s, AwaitingResponses(id), id + 1)
    ensures Alone(Run(s, [ContinueAuth(id), ResponseEnds(0, Challenge)]), AwaitingResponses(id), id + 1)
    ensures Alone(Run(s, [ContinueAuth(id), ResponseEnds(0, Complete)]), Opening, id + 1)
  {
    Two(s, ContinueAuth(id), ResponseEnds(0, Challenge));
    Two(s, ContinueAuth(id), ResponseEnds(0, Complete));
    hide Run;
    var s1 := Step(s, ContinueAuth(id));
    assert Alone(s1, Responding(id), id + 1);
    hide AuthContinued;
    RoundEnds(s1, id);
  }

  lemma RoundEnds(s: State, id: nat)
    requires Alone(s, Responding(id), id + 1)
    ensures Alone(Step(s, ResponseEnds(0, Challenge)), AwaitingResponses(id), id + 1)
    ensures Alone(Step(s, ResponseEnds(0, Complete)), Opening, id + 1)
  {
  }

  lemma FirstResult(s: State, id: nat)
    requires Alone(s, Authenticating, id)
    ensures Alone(Step(s, AuthEnds(0, Challenge)), AwaitingResponses(id), id + 1)
    ensures Alone(Step(s, AuthEnds(0, Complete)), Opening, id)
  {
  }

  lemma {:induction false} RoundsGoOn(s: State, id: nat, rounds: nat)
    requires Alone(s, AwaitingResponses(id), id + 1)
    ensures Alone(Run(s, Rounds(id, rounds)), AwaitingResponses(id), id + 1)
  {
    if rounds > 0 {
      RoundsGoOn(s, id, rounds - 1);
      RunSplit(s, Rounds(id, rounds - 1), [ContinueAuth(id), ResponseEnds(0, Challenge)]);
      hide Run, Alone;
      OneRound(Run(s, Rounds(id, rounds - 1)), id);
    }
    hide Alone;
  }

  lemma Granted(s: State, id: nat, rounds: nat)
    requires Alone(s, Authenticating, id)
    ensures Alone(Run(s, GrantEvents(id, rounds)), Opening, if rounds == 0 then id else id + 1)
  {
    hide Alone;
    var d := AuthEnds(0, if rounds == 0 then Complete else Challenge);
    Two(s, d, d);
    FirstResult(s, id);
    if rounds > 0 {
      var last := [ContinueAuth(id), ResponseEnds(0, Complete)];
      RunSplit(s, [d] + Rounds(id, rounds - 1), last);
      RunSplit(s, [d], Rounds(id, rounds - 1));
      hide Run, Rounds;
      RoundsGoOn(Run(s, [d]), id, rounds - 1);
      OneRound(Run(Run(s, [d]), Rounds(id, rounds - 1)), id);
    }
  }

  predicate Later(e: Event) {
    e.ContinueAuth? || (e.AuthEnds? && e.conn == 0) || (e.ResponseEnds? && e.conn == 0) || (e.ChannelEnds? && e.conn == 0)
  }

  lemma ShutOutStep(s: State, e: Event)
    requires ShutOut(s) && Later(e)
    ensures Step(s, e) == s
  {
  }

  lemma {:induction false} StaysShutOut(s: State, events: seq<Event>)
    requires ShutOut(s) && forall e :: e in events ==> Later(e)
    ensures Run(s, events) == s
    decreases |events|
  {
    hide Step, ShutOut, Later;
    if events != [] {
      ShutOutStep(s, events[0]);
      StaysShutOut(s, events[1..]);
    }
  }

  lemma {:induction false} RoundsAre(id: nat, rounds: nat)
    ensures forall e :: e in Rounds(id, rounds) ==> Later(e)
  {
    if rounds > 0 {
      RoundsAre(id, rounds - 1);
    }
  }

  /** The first three or four events: the key is shown, and the caller asked if nothing is trusted. */
  function Opener(server: Server, approve: bool): seq<Event> {
    [Connect(Direct, server.trusted), ServerKey(0, server.key), HandshakeEnds(0, true)] +
    (if server.trusted == {} then [ContinueHostKey(1, approve)] else [])
  }

  lemma OpenerRuns(server: Server, approve: bool)
    ensures var s := Run(START, Opener(server, approve));
      if Known(server) then Alone(s, Authenticating, 1)
      else if server.trusted == {} && approve then Alone(s, Authenticating, 2)
      else ShutOut(s)
  {
    var a, b, d, e := Connect(Direct, server.trusted), ServerKey(0, server.key), HandshakeEnds(0, true), ContinueHostKey(1, approve);
    assert Opener(server, approve) == if server.trusted == {} then [a, b] + [d, e] else [a, b] + [d];
    Two(START, a, b);
    RunSplit(START, [a, b], [d, e]);
    RunSplit(START, [a, b], [d]);
    var s0 := Step(START, a);
    assert s0.conns == [NewConn(Direct, None, server.trusted)] && s0.nextId == 1 && s0.hostKeys == s0.auths == s0.sessions == map[];
    var s1 := Step(s0, b);
    OpenerKey(s0, server);
    Two(s1, d, e);
    hide Run, Step;
    OpenerEnds(s1, server, approve);
  }

  ghost predicate KeySeen(s: State, server: Server) {
    && |s.conns| == 1 && s.nextId == 1 && s.hostKeys == s.auths == s.sessions == map[]
    && var conn := s.conns[0];
    && conn.phase.Handshaking? && conn.kind.Direct? && conn.handler.trusted == server.trusted
    && (conn.alive <==> Known(server) || server.trusted == {})
    && (conn.alive ==> conn.accepted == [server.key] && conn.handler.observed.Some?)
  }

  lemma OpenerKey(s: State, server: Server)
    requires s.conns == [NewConn(Direct, None, server.trusted)] && s.nextId == 1 && s.hostKeys == s.auths == s.sessions == map[]
    ensures KeySeen(Step(s, ServerKey(0, server.key)), server)
  {
    hide Identity;
  }

  lemma OpenerEnds(s: State, server: Server, approve: bool)
    requires KeySeen(s, server)
    ensures var s1 := Step(s, HandshakeEnds(0, true));
      if server.trusted == {}
      then var s2 := Step(s1, ContinueHostKey(1, approve)); if approve then Alone(s2, Authenticating, 2) else ShutOut(s2)
      else if Known(server) then Alone(s1, Authenticating, 1) else ShutOut(s1)
  {
    hide Identity;
  }

  lemma LaterEvents(id: nat, rounds: nat)
    ensures forall e :: e in GrantEvents(id, rounds) + [ChannelEnds(0, true)] ==> Later(e)
  {
    if rounds > 0 {
      RoundsAre(id, rounds - 1);
    }
    hide Rounds;
  }

  /** When the server answers well, a direct connection opens a session if and only if the key shown is trusted, or
      nothing was and the caller approves it; however many questions the server asks. */
  lemma DirectOpens(server: Server, approve: bool, rounds: nat)
    ensures var s := Run(START, DirectEvents(server, approve, rounds));
      var first := if server.trusted == {} then 2 else 1;
      s.sessions == if Known(server) || (server.trusted == {} && approve)
                    then map[(if rounds == 0 then first else first + 1) := 0] else map[]
  {
    var first := if server.trusted == {} then 2 else 1;
    var opener, grant := Opener(server, approve), GrantEvents(first, rounds);
    assert DirectEvents(server, approve, rounds) == opener + (grant + [ChannelEnds(0, true)]);
    OpenerRuns(server, approve);
    var s := Run(START, opener);
    RunSplit(START, opener, grant + [ChannelEnds(0, true)]);
    RunThen(s, grant, ChannelEnds(0, true));
    assert Known(server) ==> server.trusted != {};
    if Known(server) || (server.trusted == {} && approve) {
      Granted(s, first, rounds);
      hide Run, Rounds, Known;
      ChannelOpens(Run(s, grant), if rounds == 0 then first else first + 1);
    } else {
      LaterEvents(first, rounds);
      hide Run, Later, GrantEvents, Known;
      StaysShutOut(s, grant + [ChannelEnds(0, true)]);
    }
  }

  lemma ChannelOpens(s: State, nextId: nat)
    requires Alone(s, Opening, nextId)
    ensures Step(s, ChannelEnds(0, true)).sessions == map[nextId := 0]
  {
  }
}
