/** What runs of host-key confirmation do, in terms of what the callers asked and the servers showed. */
module HostKeyRuns {
  import opened Basics
  import opened HostKeys

  lemma {:induction false} RunThen(s: State, events: seq<Event>, e: Event)
    ensures Run(s, events + [e]) == Step(Run(s, events), e)
    decreases |events|
  {
    hide Step;
    if events == [] {
      assert Run(Step(s, e), []) == Step(s, e);
      assert [] + [e] == [e] && [e][1..] == [];
    } else {
      assert (events + [e])[1..] == events[1..] + [e];
      RunThen(Step(s, events[0]), events[1..], e);
    }
  }

  lemma Last(events: seq<Event>)
    requires events != []
    ensures Run(START, events) == Step(Run(START, events[..|events| - 1]), events[|events| - 1])
  {
    assert events == events[..|events| - 1] + [events[|events| - 1]];
    hide Step, Run;
    RunThen(START, events[..|events| - 1], events[|events| - 1]);
  }

  lemma Reachable(events: seq<Event>)
    ensures Inv(Run(START, events))
  {
    assert Inv(START);
    RunKeeps(START, events);
    hide Run, Inv;
  }

  // ---- What a single event changes ----

  /** What no event changes in a connection; credentials once offered stay offered. */
  predicate SameOrigin(conn: Conn, conn': Conn) {
    && conn'.kind == conn.kind && conn'.via == conn.via
    && conn'.handler.trusted == conn.handler.trusted && conn'.handler.acceptUnknown == conn.handler.acceptUnknown
    && (conn.attempted ==> conn'.attempted)
  }

  /** Apart from a key that is shown, no event changes what a connection has accepted. */
  predicate SameKeys(conn: Conn, conn': Conn) {
    conn'.handler == conn.handler && conn'.accepted == conn.accepted && conn'.alive == conn.alive
  }

  /** At most connection `c` differs. */
  ghost predicate OnlyAt(s: State, s': State, c: nat) {
    && |s'.conns| == |s.conns|
    && (forall d :: 0 <= d < |s.conns| && d != c ==> s'.conns[d] == s.conns[d])
    && (c < |s.conns| ==> SameOrigin(s.conns[c], s'.conns[c]))
  }

  ghost predicate OnlyPhaseAt(s: State, s': State, c: nat) {
    OnlyAt(s, s', c) && (c < |s.conns| ==> SameKeys(s.conns[c], s'.conns[c]))
  }

  function Find(registry: map<nat, nat>, id: nat, none: nat): nat {
    if id in registry then registry[id] else none
  }

  /** The connection an event is about. */
  function Subject(s: State, e: Event): nat {
    match e
    case Connect(_, _) => |s.conns|
    case ConnectThrough(_, _, _) => |s.conns|
    case ServerKey(c, _) => c
    case HandshakeEnds(c, _) => c
    case ContinueHostKey(id, _) => Find(s.hostKeys, id, |s.conns|)
    case ConfirmationTimeout(id) => Find(s.hostKeys, id, |s.conns|)
    case AuthEnds(c, _) => c
    case ContinueAuth(id) => Find(s.auths, id, |s.conns|)
    case ResponseEnds(c, _) => c
    case ChannelEnds(c, _) => c
    case CloseSession(id) => Find(s.sessions, id, |s.conns|)
  }

  lemma ShownShape(s: State, c: nat, key: HostKey)
    requires c < |s.conns|
    ensures OnlyAt(s, KeyShown(s, c, key), c)
  {
    hide Identity;
  }

  lemma HandshakeShape(s: State, c: nat, ok: bool)
    requires c < |s.conns|
    ensures OnlyPhaseAt(s, AfterHandshake(s, c, ok), c)
  {
  }

  lemma AnswerShape(s: State, id: nat, approve: bool)
    ensures OnlyPhaseAt(s, HostKeyContinued(s, id, approve), Find(s.hostKeys, id, |s.conns|))
    ensures OnlyPhaseAt(s, TimedOut(s, id), Find(s.hostKeys, id, |s.conns|))
  {
  }

  lemma AuthShape(s: State, c: nat, result: AuthResult)
    requires c < |s.conns|
    ensures OnlyPhaseAt(s, AuthEnded(s, c, result), c)
    ensures s.conns[c].phase.Responding? ==> OnlyPhaseAt(s, ResponseEnded(s, c, result), c)
  {
  }

  lemma OpeningShape(s: State, c: nat, ok: bool, id: nat)
    ensures c < |s.conns| ==> OnlyPhaseAt(s, ChannelEnded(s, c, ok), c)
    ensures OnlyPhaseAt(s, AuthContinued(s, id), Find(s.auths, id, |s.conns|))
    ensures OnlyPhaseAt(s, SessionClosed(s, id), Find(s.sessions, id, |s.conns|))
  {
  }

  /** An event changes the connection it is about and no other. */
  lemma StepShape(s: State, e: Event)
    ensures !e.Connect? && !e.ConnectThrough? ==> OnlyAt(s, Step(s, e), Subject(s, e))
    ensures !e.Connect? && !e.ConnectThrough? && !e.ServerKey? ==> OnlyPhaseAt(s, Step(s, e), Subject(s, e))
  {
    hide KeyShown, AfterHandshake, HostKeyContinued, TimedOut, AuthEnded, AuthContinued, ResponseEnded,
         ChannelEnded, SessionClosed, NewConn, MayEnd, Find;
    match e {
      case Connect(_, _) =>
      case ConnectThrough(_, _, _) =>
      case ServerKey(c, key) => if c < |s.conns| { ShownShape(s, c, key); }
      case HandshakeEnds(c, ok) => if c < |s.conns| { HandshakeShape(s, c, ok); }
      case ContinueHostKey(id, approve) => AnswerShape(s, id, approve);
      case ConfirmationTimeout(id) => AnswerShape(s, id, false);
      case AuthEnds(c, result) => if c < |s.conns| { AuthShape(s, c, result); }
      case ContinueAuth(id) => OpeningShape(s, 0, true, id);
      case ResponseEnds(c, result) => if c < |s.conns| { AuthShape(s, c, result); }
      case ChannelEnds(c, ok) => OpeningShape(s, c, ok, 0);
      case CloseSession(id) => OpeningShape(s, 0, true, id);
    }
  }

  lemma ConnStays(s: State, e: Event, c: nat)
    requires c < |s.conns|
    ensures c < |Step(s, e).conns| && SameOrigin(s.conns[c], Step(s, e).conns[c])
    ensures !e.ServerKey? ==> SameKeys(s.conns[c], Step(s, e).conns[c])
    ensures !e.Connect? && !e.ConnectThrough? && c != Subject(s, e) ==> Step(s, e).conns[c] == s.conns[c]
  {
    if e.Connect? || e.ConnectThrough? {
      CreationStep(s, e);
    } else {
      StepShape(s, e);
    }
    hide Step, Subject;
  }

  // ---- Connections are what was requested ----

  predicate Creates(s: State, e: Event) {
    || (e.Connect? && !e.kind.Target?)
    || (e.ConnectThrough? && At(s, e.hop, CarryingNext) && s.conns[e.hop].alive)
  }

  /** The requests that made connections, in order. */
  ghost function Requests(s: State, events: seq<Event>): seq<Event>
    decreases |events|
  {
    if events == [] then [] else
      (if Creates(s, events[0]) then [events[0]] else []) + Requests(Step(s, events[0]), events[1..])
  }

  /** A connection of the kind, over the hop, and with the trusted keys that were asked for; only a direct one
      without trusted keys may accept a key to ask about it. */
  predicate MadeBy(conn: Conn, e: Event) {
    && (e.Connect? || e.ConnectThrough?)
    && (e.Connect? ==> conn.kind == e.kind && conn.via == None)
    && (e.ConnectThrough? ==> conn.kind == (if e.last then Target else Hop) && conn.via == Some(e.hop))
    && conn.handler.trusted == e.trusted
    && (conn.handler.acceptUnknown <==> e.Connect? && e.kind.Direct? && e.trusted == {})
  }

  lemma CreationStep(s: State, e: Event)
    ensures var s' := Step(s, e);
      && |s'.conns| == |s.conns| + (if Creates(s, e) then 1 else 0)
      && (Creates(s, e) ==> MadeBy(s'.conns[|s.conns|], e) && IsNew(s'.conns[|s.conns|]))
      && (e.Connect? || e.ConnectThrough? ==> s.conns <= s'.conns && s' == s.(conns := s'.conns))
  {
    if !e.Connect? && !e.ConnectThrough? {
      StepShape(s, e);
      hide Step;
    }
  }

  predicate IsNew(conn: Conn) {
    conn.alive && conn.accepted == [] && conn.handler.observed.None? && conn.returned.None? && !conn.attempted && conn.phase.Handshaking?
  }

  lemma {:induction false} RequestsMade(s: State, events: seq<Event>)
    ensures |Run(s, events).conns| == |s.conns| + |Requests(s, events)|
    ensures forall c :: 0 <= c < |s.conns| ==> SameOrigin(s.conns[c], Run(s, events).conns[c])
    ensures forall k :: 0 <= k < |Requests(s, events)| ==> MadeBy(Run(s, events).conns[|s.conns| + k], Requests(s, events)[k])
    decreases |events|
  {
    if events != [] {
      var e, s1, rest := events[0], Step(s, events[0]), events[1..];
      CreationStep(s, e);
      RequestsMade(s1, rest);
      forall c | 0 <= c < |s.conns| ensures SameOrigin(s.conns[c], Run(s, events).conns[c]) {
        ConnStays(s, e, c);
      }
      hide Step, Creates;
      var n := |s.conns|;
      forall k | 0 <= k < |Requests(s, events)| ensures MadeBy(Run(s, events).conns[n + k], Requests(s, events)[k]) {
        if |s1.conns| == n + 1 {
          assert SameOrigin(s1.conns[n], Run(s1, rest).conns[n]);
          assert k > 0 ==> Requests(s, events)[k] == Requests(s1, rest)[k - 1];
        } else {
          assert Requests(s, events)[k] == Requests(s1, rest)[k];
        }
      }
    }
  }

  /** Every connection is one of the requested ones, with exactly its trusted keys, and none is missing. */
  lemma ConnectionsAreRequested(events: seq<Event>)
    ensures var conns, requests := Run(START, events).conns, Requests(START, events);
      |conns| == |requests| && forall c :: 0 <= c < |conns| ==> MadeBy(conns[c], requests[c])
  {
    RequestsMade(START, events);
    hide Run, Requests, MadeBy;
    assert START.conns == [];
  }

  // ---- Which keys a connection accepts ----

  /** The keys the server has shown on a connection while it was open. */
  ghost function Shown(s: State, events: seq<Event>, c: nat): seq<HostKey>
    decreases |events|
  {
    if events == [] then [] else ShownBy(s, events[0], c) + Shown(Step(s, events[0]), events[1..], c)
  }

  function ShownBy(s: State, e: Event, c: nat): seq<HostKey> {
    if e.ServerKey? && e.conn == c && c < |s.conns| && !s.conns[c].phase.Closed? then [e.key] else []
  }

  /** The keys up to the first that is refused. */
  function Accepted(h: Handler, keys: seq<HostKey>): (r: seq<HostKey>)
    ensures r <= keys
    decreases |keys|
  {
    if keys == [] || !Checked(h, keys[0]).1 then [] else [keys[0]] + Accepted(Checked(h, keys[0]).0, keys[1..])
  }

  /** The handler after keys that are all accepted. */
  function HandlerAfter(h: Handler, keys: seq<HostKey>): Handler
    decreases |keys|
  {
    if keys == [] then h else HandlerAfter(Checked(h, keys[0]).0, keys[1..])
  }

  /** A connection after the keys: a refused one ends it. */
  ghost predicate HasSeen(conn: Conn, conn': Conn, keys: seq<HostKey>) {
    if !conn.alive then !conn'.alive && conn'.accepted == conn.accepted else
      && conn'.accepted == conn.accepted + Accepted(conn.handler, keys)
      && (conn'.alive <==> Accepted(conn.handler, keys) == keys)
      && (conn'.alive ==> conn'.handler == HandlerAfter(conn.handler, keys))
  }

  lemma SeesOne(s: State, e: Event, c: nat)
    requires c < |s.conns|
    ensures c < |Step(s, e).conns| && HasSeen(s.conns[c], Step(s, e).conns[c], ShownBy(s, e, c))
  {
    ConnStays(s, e, c);
    if e.ServerKey? && e.conn == c {
      ShownOne(s, c, e.key);
      hide KeyShown;
    } else {
      assert Step(s, e).conns[c] == s.conns[c] || SameKeys(s.conns[c], Step(s, e).conns[c]);
      hide Step;
    }
  }

  lemma ShownOne(s: State, c: nat, key: HostKey)
    requires c < |s.conns|
    ensures s.conns[c].alive ==> HasSeen(s.conns[c], KeyShown(s, c, key).conns[c], [key])
  {
    FirstKey(s.conns[c].handler, key, []);
    assert [key] + [] == [key] && s.conns[c].accepted + [] == s.conns[c].accepted;
    hide Checked, Accepted, HandlerAfter;
    assert [key] != [];
  }

  lemma FirstKey(h: Handler, key: HostKey, rest: seq<HostKey>)
    ensures Accepted(h, [key] + rest) == if Checked(h, key).1 then [key] + Accepted(Checked(h, key).0, rest) else []
    ensures Accepted(h, [key]) == if Checked(h, key).1 then [key] else []
    ensures HandlerAfter(h, [key]) == Checked(h, key).0 && HandlerAfter(h, [key] + rest) == HandlerAfter(Checked(h, key).0, rest)
    ensures Accepted(Checked(h, key).0, []) == [] && HandlerAfter(Checked(h, key).0, []) == Checked(h, key).0
  {
    assert ([key] + rest)[1..] == rest && [key][1..] == [];
    hide Checked;
  }

  lemma SeesMore(a: Conn, b: Conn, d: Conn, first: seq<HostKey>, rest: seq<HostKey>)
    requires HasSeen(a, b, first) && HasSeen(b, d, rest) && |first| <= 1
    ensures HasSeen(a, d, first + rest)
  {
    if first == [] {
      assert first + rest == rest && a.accepted + [] == a.accepted;
      assert Accepted(a.handler, first) == [] && HandlerAfter(a.handler, first) == a.handler;
      hide Checked;
    } else if a.alive {
      var key := first[0];
      assert first == [key];
      FirstKey(a.handler, key, rest);
      hide Checked, Accepted, HandlerAfter;
      var more := Accepted(b.handler, rest);
      assert a.accepted + [key] + more == a.accepted + ([key] + more);
      assert [key] + more == [key] + rest ==> more == rest by {
        assert ([key] + more)[1..] == more && ([key] + rest)[1..] == rest;
      }
      assert [key] + rest != [] && a.accepted + [] == a.accepted;
    }
  }

  lemma {:induction false} SeesAll(s: State, events: seq<Event>, c: nat)
    requires c < |s.conns|
    ensures c < |Run(s, events).conns| && HasSeen(s.conns[c], Run(s, events).conns[c], Shown(s, events, c))
    decreases |events|
  {
    if events == [] {
      assert s.conns[c].accepted + [] == s.conns[c].accepted;
    } else {
      var s1 := Step(s, events[0]);
      SeesOne(s, events[0], c);
      SeesAll(s1, events[1..], c);
      SeesMore(s.conns[c], s1.conns[c], Run(s1, events[1..]).conns[c], ShownBy(s, events[0], c), Shown(s1, events[1..], c));
    }
    hide Step, HasSeen, ShownBy;
  }

  /** The same for a connection made on the way. */
  lemma {:induction false} SeesAllSinceMade(s: State, events: seq<Event>, c: nat)
    requires |s.conns| <= c < |Run(s, events).conns|
    ensures var conn := Run(s, events).conns[c];
      HasSeen(Fresh(conn), conn, Shown(s, events, c))
    decreases |events|
  {
    if events != [] {
      var e, s1, rest := events[0], Step(s, events[0]), events[1..];
      CreationStep(s, e);
      assert ShownBy(s, e, c) + Shown(s1, rest, c) == Shown(s1, rest, c);
      if c < |s1.conns| {
        SeesAll(s1, rest, c);
        RequestsMade(s1, rest);
        FreshlyMade(s1.conns[c], e, Run(s1, rest).conns[c]);
      } else {
        SeesAllSinceMade(s1, rest, c);
      }
      hide Step, HasSeen, ShownBy;
    }
  }

  /** A connection as it was before any key was shown. */
  function Fresh(conn: Conn): Conn {
    conn.(handler := conn.handler.(observed := None), alive := true, accepted := [])
  }

  lemma FreshlyMade(conn: Conn, e: Event, conn': Conn)
    requires IsNew(conn) && SameOrigin(conn, conn')
    ensures Fresh(conn').handler == conn.handler && Fresh(conn').alive == conn.alive && Fresh(conn').accepted == conn.accepted
  {
  }

  /** Whether a connection should accept the `i`th key it is shown: one that asks the user accepts the repetitions
      of the first key, any other the trusted keys. */
  ghost predicate Acceptable(conn: Conn, keys: seq<HostKey>, i: nat)
    requires i < |keys|
  {
    if Asks(conn) then Identity(keys[i]) == Identity(keys[0]) else Identity(keys[i]) in conn.handler.trusted
  }

  lemma {:induction false} AcceptedVerdicts(h: Handler, keys: seq<HostKey>)
    ensures var n := |Accepted(h, keys)|;
      && (forall i :: 0 <= i < n ==> Verdicts(h, keys)[i])
      && (n < |keys| ==> !Verdicts(h, keys)[n])
    decreases |keys|
  {
    if keys != [] && Checked(h, keys[0]).1 {
      AcceptedVerdicts(Checked(h, keys[0]).0, keys[1..]);
    }
    hide Checked;
  }

  lemma VerdictIsAcceptable(conn: Conn, keys: seq<HostKey>, i: nat)
    requires i < |keys| && (conn.handler.acceptUnknown <==> Asks(conn)) && (Asks(conn) ==> conn.handler.trusted == {})
    ensures Verdicts(Fresh(conn).handler, keys)[i] <==> Acceptable(conn, keys, i)
  {
    if Asks(conn) {
      FirstKeyIsPinned(keys, i);
      assert Fresh(conn).handler == Handler({}, None, true);
    } else {
      OnlyTrustedKeys(Fresh(conn).handler, keys, i);
    }
    hide Verdicts, Identity, Asks;
  }

  /** Of the keys shown on a connection, at the handshake and at rekeys, it accepts those before the first that is
      not acceptable, and that one ends it. */
  lemma KeysDecide(events: seq<Event>, c: nat)
    requires c < |Run(START, events).conns|
    ensures var conn, keys := Run(START, events).conns[c], Shown(START, events, c);
      && conn.accepted <= keys
      && (conn.alive <==> conn.accepted == keys)
      && (forall i :: 0 <= i < |conn.accepted| ==> Acceptable(conn, keys, i))
      && (!conn.alive ==> !Acceptable(conn, keys, |conn.accepted|))
  {
    var conn, keys := Run(START, events).conns[c], Shown(START, events, c);
    SeesAllSinceMade(START, events, c);
    Reachable(events);
    assert ConnInv(conn);
    AcceptedVerdicts(Fresh(conn).handler, keys);
    var n := |Accepted(Fresh(conn).handler, keys)|;
    assert conn.accepted == Accepted(Fresh(conn).handler, keys) by {
      assert [] + Accepted(Fresh(conn).handler, keys) == Accepted(Fresh(conn).handler, keys);
    }
    hide Run, Shown, Inv, Accepted, Verdicts, Acceptable;
    forall i | 0 <= i < |keys| && i <= n ensures Verdicts(Fresh(conn).handler, keys)[i] <==> Acceptable(conn, keys, i) {
      VerdictIsAcceptable(conn, keys, i);
    }
  }

  // ---- What the caller answers ----

  /** Event `i` of the run is the caller's approval of the host key that connection `c` then waits with. */
  ghost predicate ApprovedAt(events: seq<Event>, i: nat, c: nat) {
    && i < |events| && events[i].ContinueHostKey? && events[i].approve
    && var s := Run(START, events[..i]);
    && events[i].id in s.hostKeys && s.hostKeys[events[i].id] == c
  }

  ghost predicate ApprovedBy(events: seq<Event>, c: nat) {
    exists i: nat :: ApprovedAt(events, i, c)
  }

  lemma ApprovedLater(events: seq<Event>, c: nat)
    requires events != [] && ApprovedBy(events[..|events| - 1], c)
    ensures ApprovedBy(events, c)
  {
    var before := events[..|events| - 1];
    var i: nat :| ApprovedAt(before, i, c);
    assert before[..i] == events[..i];
    hide Run;
    assert ApprovedAt(events, i, c);
  }

  /** Credentials are first offered after a good handshake, or, where the caller is asked, by an approval. */
  lemma FirstOffer(s: State, e: Event, c: nat)
    requires Inv(s) && c < |Step(s, e).conns| && Step(s, e).conns[c].attempted
    requires c < |s.conns| ==> !s.conns[c].attempted
    ensures c < |s.conns| && c == Subject(s, e) && s.conns[c].alive == Step(s, e).conns[c].alive
    ensures e == HandshakeEnds(c, true) || (e.ContinueHostKey? && e.approve && e.id in s.hostKeys)
    ensures Asks(Step(s, e).conns[c]) ==> e.ContinueHostKey?
    ensures e.HandshakeEnds? ==> s.conns[c].alive
  {
    CreationStep(s, e);
    if c < |s.conns| {
      ConnStays(s, e, c);
      FirstOfferOf(s, e, c);
    }
    hide Step, Inv, Subject, Asks;
  }

  lemma FirstOfferOf(s: State, e: Event, c: nat)
    requires c < |s.conns| && !s.conns[c].attempted && Step(s, e).conns[c].attempted
    ensures c == Subject(s, e)
    ensures e == HandshakeEnds(c, true) || (e.ContinueHostKey? && e.approve && e.id in s.hostKeys)
    ensures Asks(Step(s, e).conns[c]) ==> e.ContinueHostKey?
    ensures e.HandshakeEnds? ==> s.conns[c].alive
  {
    if c != Subject(s, e) || e.Connect? || e.ConnectThrough? {
      ConnStays(s, e, c);
      if e.Connect? || e.ConnectThrough? {
        CreationStep(s, e);
      }
      hide Step;
    } else {
      hide Identity, MayEnd;
    }
  }

  /** Where the caller is asked, credentials are offered only after the caller has said yes to that key. */
  lemma {:induction false} ApprovalIsTheCallers(events: seq<Event>, c: nat)
    requires c < |Run(START, events).conns|
    requires Run(START, events).conns[c].attempted && Asks(Run(START, events).conns[c])
    ensures ApprovedBy(events, c)
    decreases |events|
  {
    if events != [] {
      var n := |events| - 1;
      var before, e := events[..n], events[n];
      var s := Run(START, before);
      Last(events);
      Reachable(before);
      if c < |s.conns| && s.conns[c].attempted {
        ConnStays(s, e, c);
        ApprovalIsTheCallers(before, c);
        ApprovedLater(events, c);
      } else {
        FirstOffer(s, e, c);
        assert ApprovedAt(events, n, c);
      }
    }
    hide Run, Step, Inv, ApprovedAt;
  }

  /** The caller's answer decides, and so does the timeout: yes offers credentials, no or silence closes the
      connection without any. Nothing else changes, and a later answer finds nothing. */
  lemma AnswerDecides(events: seq<Event>, id: nat, e: Event)
    requires id in Run(START, events).hostKeys
    requires e == ContinueHostKey(id, true) || e == ContinueHostKey(id, false) || e == ConfirmationTimeout(id)
    ensures var s := Run(START, events); var s', c := Step(s, e), s.hostKeys[id];
      && c < |s.conns| && s.conns[c].phase == AwaitingApproval(id) && !s.conns[c].attempted
      && s'.conns[c] == s.conns[c].(attempted := e == ContinueHostKey(id, true),
                                    phase := if e == ContinueHostKey(id, true) then Authenticating else Closed)
      && OnlyAt(s, s', c) && s'.hostKeys == s.hostKeys - {id}
      && s'.auths == s.auths && s'.sessions == s.sessions && s'.nextId == s.nextId
  {
    Reachable(events);
    var s := Run(START, events);
    hide Run;
    var c := s.hostKeys[id];
    assert At(s, c, AwaitingApproval(id));
    assert ConnInv(s.conns[c]);
    StepShape(s, e);
    hide Inv, ConnInv;
  }

  lemma LateAnswer(s: State, id: nat, approve: bool)
    requires id !in s.hostKeys
    ensures Step(s, ContinueHostKey(id, approve)) == s && Step(s, ConfirmationTimeout(id)) == s
  {
  }

  /** How a handshake ends: with no credentials offered if it fails or a key was refused; with the first key shown
      put to the caller under a new id if the connection may ask; with authentication otherwise. */
  lemma HandshakeDecides(events: seq<Event>, c: nat, ok: bool)
    requires var s := Run(START, events); At(s, c, Handshaking) && MayEnd(s.conns[c], ok)
    ensures var s := Run(START, events); var s', keys := Step(s, HandshakeEnds(c, ok)), Shown(START, events, c);
      var conn, conn' := s.conns[c], s'.conns[c];
      && OnlyAt(s, s', c)
      && (!ok || conn.accepted != keys || keys == [] ==> conn'.phase == Closed && !conn'.attempted && s'.hostKeys == s.hostKeys)
      && (ok && conn.accepted == keys != [] && !Asks(conn) ==> conn'.phase == Authenticating && conn'.attempted)
      && (ok && conn.accepted == keys != [] && Asks(conn) ==>
          && conn'.phase == AwaitingApproval(s.nextId) && s'.hostKeys == s.hostKeys[s.nextId := c] && s.nextId !in s.hostKeys
          && !conn'.attempted && conn'.returned.Some? && Identity(conn'.returned.value) == Identity(keys[0]))
  {
    Reachable(events);
    KeysDecide(events, c);
    var s := Run(START, events);
    hide Run, Shown;
    assert ConnInv(s.conns[c]);
    StepShape(s, HandshakeEnds(c, ok));
    if s.conns[c].handler.acceptUnknown && s.conns[c].accepted != [] {
      assert Identity(s.conns[c].accepted[0]) == Identity(s.conns[c].handler.observed.value);
    }
    hide ConnsInv, AuthsInv, SessionsInv, Identity, Acceptable;
  }

  // ---- Each pending host key is answered once ----

  lemma {:induction false} RunSplit(s: State, a: seq<Event>, b: seq<Event>)
    ensures Run(s, a + b) == Run(Run(s, a), b)
    decreases |a|
  {
    hide Step;
    if a == [] {
      assert a + b == b;
    } else {
      assert (a + b)[1..] == a[1..] + b;
      RunSplit(Step(s, a[0]), a[1..], b);
    }
  }

  /** An answer, or the timeout, that gets the pending host key. */
  predicate Consumes(s: State, e: Event, id: nat) {
    (e.ContinueHostKey? || e.ConfirmationTimeout?) && e.id == id && id in s.hostKeys
  }

  predicate Spent(s: State, id: nat) {
    id < s.nextId && id !in s.hostKeys
  }

  lemma SpentStep(s: State, e: Event, id: nat)
    requires Spent(s, id)
    ensures Spent(Step(s, e), id)
  {
    hide Identity, MayEnd, Asks;
  }

  lemma {:induction false} SpentForGood(s: State, events: seq<Event>, id: nat)
    requires Spent(s, id)
    ensures Spent(Run(s, events), id)
    decreases |events|
  {
    hide Step, Spent;
    if events != [] {
      SpentStep(s, events[0], id);
      SpentForGood(Step(s, events[0]), events[1..], id);
    }
  }

  /** Approval, rejection and the timeout compete for each pending host key, and only the first gets it. */
  lemma ConsumedOnce(events: seq<Event>, i: nat, j: nat, id: nat)
    requires i < j < |events| && Consumes(Run(START, events[..i]), events[i], id)
    ensures !Consumes(Run(START, events[..j]), events[j], id)
  {
    var s := Run(START, events[..i]);
    Reachable(events[..i]);
    AnswerDecides(events[..i], id, events[i]);
    assert id < s.nextId;
    assert events[..i] + [events[i]] == events[..i + 1] && events[..i + 1] + events[i + 1..j] == events[..j];
    hide Step, Run, Inv;
    RunThen(START, events[..i], events[i]);
    RunSplit(START, events[..i + 1], events[i + 1..j]);
    SpentForGood(Step(s, events[i]), events[i + 1..j], id);
  }

  // ---- What the server grants ----

  /** Event `i` is the server's acceptance of the credentials offered on connection `c`. */
  ghost predicate PassedAt(events: seq<Event>, i: nat, c: nat) {
    && i < |events|
    && var s := Run(START, events[..i]);
    && c < |s.conns| && Passes(s, events[i], c)
  }

  predicate Passes(s: State, e: Event, c: nat)
    requires c < |s.conns|
  {
    && s.conns[c].alive
    && ((e == AuthEnds(c, Complete) && s.conns[c].phase.Authenticating?) ||
        (e == ResponseEnds(c, Complete) && s.conns[c].phase.Responding?))
  }

  ghost predicate Passed(events: seq<Event>, c: nat) {
    exists i: nat :: PassedAt(events, i, c)
  }

  /** Event `i` opens the session's channel on connection `c`. */
  ghost predicate OpenedAt(events: seq<Event>, i: nat, c: nat) {
    && i < |events| && events[i] == ChannelEnds(c, true)
    && var s := Run(START, events[..i]);
    && c < |s.conns| && s.conns[c].alive && s.conns[c].phase.Opening?
  }

  ghost predicate Opened(events: seq<Event>, c: nat) {
    exists i: nat :: OpenedAt(events, i, c)
  }

  lemma GrantsStay(events: seq<Event>, c: nat)
    requires events != []
    ensures Passed(events[..|events| - 1], c) ==> Passed(events, c)
    ensures Opened(events[..|events| - 1], c) ==> Opened(events, c)
  {
    var before := events[..|events| - 1];
    hide Run, Passes;
    if Passed(before, c) {
      var i: nat :| PassedAt(before, i, c);
      assert before[..i] == events[..i];
      assert PassedAt(events, i, c);
    }
    if Opened(before, c) {
      var i: nat :| OpenedAt(before, i, c);
      assert before[..i] == events[..i];
      assert OpenedAt(events, i, c);
    }
  }

  predicate Through(phase: Phase) {
    phase.Opening? || phase.CarryingNext? || phase.InSession?
  }

  lemma PhaseStep(s: State, e: Event, c: nat)
    requires c < |Step(s, e).conns|
    ensures Through(Step(s, e).conns[c].phase) ==> c < |s.conns| && (Through(s.conns[c].phase) || Passes(s, e, c))
    ensures Step(s, e).conns[c].phase.InSession? ==>
      c < |s.conns| && (s.conns[c].phase.InSession? || (e == ChannelEnds(c, true) && s.conns[c].alive && s.conns[c].phase.Opening?))
    ensures Step(s, e).conns[c].phase.CarryingNext? ==>
      c < |s.conns| && (s.conns[c].phase.CarryingNext? || s.conns[c].kind.Hop?)
  {
    if e.Connect? || e.ConnectThrough? {
      CreationStep(s, e);
      hide Step;
    } else if c != Subject(s, e) {
      StepShape(s, e);
      hide Step;
    } else {
      StepShape(s, e);
      PhaseStepOf(s, e, c);
      hide Step;
    }
  }

  lemma PhaseStepOf(s: State, e: Event, c: nat)
    requires c < |s.conns| && c == Subject(s, e) && c < |Step(s, e).conns|
    ensures Through(Step(s, e).conns[c].phase) ==> Through(s.conns[c].phase) || Passes(s, e, c)
    ensures Step(s, e).conns[c].phase.InSession? ==>
      s.conns[c].phase.InSession? || (e == ChannelEnds(c, true) && s.conns[c].alive && s.conns[c].phase.Opening?)
    ensures Step(s, e).conns[c].phase.CarryingNext? ==> s.conns[c].phase.CarryingNext? || s.conns[c].kind.Hop?
  {
    if e.ServerKey? || e.HandshakeEnds? || e.ContinueHostKey? || e.ConfirmationTimeout? || e.ContinueAuth? || e.CloseSession? {
      KeyPhases(s, e, c);
      hide Step;
    } else {
      hide Identity, MayEnd, Asks, KeyShown, AfterHandshake, HostKeyContinued, TimedOut, AuthContinued, SessionClosed;
    }
  }

  lemma KeyPhases(s: State, e: Event, c: nat)
    requires c < |s.conns| && c == Subject(s, e) && c < |Step(s, e).conns|
    requires e.ServerKey? || e.HandshakeEnds? || e.ContinueHostKey? || e.ConfirmationTimeout? || e.ContinueAuth? || e.CloseSession?
    ensures var phase := Step(s, e).conns[c].phase; phase == s.conns[c].phase || !Through(phase)
  {
    hide Identity, MayEnd, Asks, AuthEnded, ResponseEnded, ChannelEnded;
  }

  /** A connection that carries another or a session has been granted that by the server. */
  lemma {:induction false} GrantedFirst(events: seq<Event>, c: nat)
    requires c < |Run(START, events).conns|
    ensures var conn := Run(START, events).conns[c];
      && (Through(conn.phase) ==> Passed(events, c))
      && (conn.phase.InSession? ==> Opened(events, c))
      && (conn.via.Some? ==> Passed(events, conn.via.value))
    decreases |events|
  {
    if events != [] {
      var n := |events| - 1;
      var before, e := events[..n], events[n];
      var s, conn := Run(START, before), Run(START, events).conns[c];
      Last(events);
      PhaseStep(s, e, c);
      GrantsStay(events, c);
      if c < |s.conns| {
        ConnStays(s, e, c);
        GrantedFirst(before, c);
        if Passes(s, e, c) {
          assert PassedAt(events, n, c);
        }
        if e == ChannelEnds(c, true) && s.conns[c].alive && s.conns[c].phase.Opening? {
          assert OpenedAt(events, n, c);
        }
        if conn.via.Some? {
          GrantsStay(events, conn.via.value);
        }
      } else {
        CreationStep(s, e);
        if conn.via.Some? {
          GrantedFirst(before, e.hop);
          GrantsStay(events, e.hop);
        }
      }
    }
    hide Run, Step, Passes, Inv, Passed, Opened;
  }

  // ---- Main results ----

  /** Every key the connection accepted was acceptable, the caller said yes if asked, to the very key shown, and
      the same holds of the jump hosts under it, each of which has let us in. */
  ghost predicate Established(events: seq<Event>, c: nat) {
    c < |Run(START, events).conns| &&
    var conn, keys := Run(START, events).conns[c], Shown(START, events, c);
    && [] != conn.accepted <= keys
    && (forall i :: 0 <= i < |conn.accepted| ==> Acceptable(conn, keys, i))
    && (Asks(conn) ==> ApprovedBy(events, c) && conn.returned.Some? && Identity(conn.returned.value) == Identity(keys[0]))
    && (conn.via.Some? ==> conn.via.value < c && Passed(events, conn.via.value) && Established(events, conn.via.value))
  }

  /** No credential is offered on a connection before its host key, and those of all jump hosts under it, are
      trusted, or approved by the caller. */
  lemma {:induction false} AuthenticationWaits(events: seq<Event>, c: nat)
    requires c < |Run(START, events).conns| && Run(START, events).conns[c].attempted
    ensures Established(events, c)
    decreases c
  {
    var s := Run(START, events);
    Reachable(events);
    assert ConnInv(s.conns[c]) && LinkInv(s, c);
    KeysDecide(events, c);
    GrantedFirst(events, c);
    if Asks(s.conns[c]) {
      ApprovalIsTheCallers(events, c);
      ReturnedIsFirst(events, c);
    }
    if s.conns[c].via.Some? {
      AuthenticationWaits(events, s.conns[c].via.value);
    }
    hide Run, Inv, Shown, Acceptable, Identity, ApprovedBy, Passed;
  }

  lemma ReturnedIsFirst(events: seq<Event>, c: nat)
    requires c < |Run(START, events).conns|
    requires var conn := Run(START, events).conns[c]; Asks(conn) && conn.attempted
    ensures var conn, keys := Run(START, events).conns[c], Shown(START, events, c);
      conn.returned.Some? && conn.accepted != [] && conn.accepted <= keys && Identity(conn.returned.value) == Identity(keys[0])
  {
    var conn := Run(START, events).conns[c];
    Reachable(events);
    assert ConnInv(conn);
    KeysDecide(events, c);
    assert Identity(conn.accepted[0]) == Identity(conn.handler.observed.value);
    hide Run, Inv, Shown, Acceptable, Identity;
  }

  /** In every reachable state a session exists only over such host keys, after the server accepted the credentials
      and opened the channel. */
  lemma SessionsAreTrusted(events: seq<Event>, id: nat)
    requires id in Run(START, events).sessions
    ensures var c := Run(START, events).sessions[id]; Established(events, c) && Passed(events, c) && Opened(events, c)
  {
    var s := Run(START, events);
    Reachable(events);
    hide Run;
    InItsSession(s, id);
    hide Inv, Established, Passed, Opened;
    GrantedFirst(events, s.sessions[id]);
    AuthenticationWaits(events, s.sessions[id]);
  }

  lemma InItsSession(s: State, id: nat)
    requires Inv(s) && id in s.sessions
    ensures s.sessions[id] < |s.conns| && s.conns[s.sessions[id]].attempted && s.conns[s.sessions[id]].phase == InSession(id)
  {
    assert At(s, s.sessions[id], InSession(id));
    Attempted(s, s.sessions[id]);
  }

  /** A session ends when it is closed, and only then. */
  lemma SessionsEnd(events: seq<Event>, id: nat, e: Event)
    requires id in Run(START, events).sessions
    ensures var s := Run(START, events); var s', c := Step(s, e), s.sessions[id];
      && (id in s'.sessions <==> e != CloseSession(id))
      && (e == CloseSession(id) ==>
          s'.sessions == s.sessions - {id} && OnlyAt(s, s', c) && c < |s.conns| && s'.conns[c].phase.Closed?)
  {
    Reachable(events);
    var s := Run(START, events);
    hide Run;
    assert At(s, s.sessions[id], InSession(id));
    if e == CloseSession(id) {
      StepShape(s, e);
      hide Inv;
    } else {
      hide Inv;
      SessionStays(s, e, id);
    }
  }

  lemma SessionStays(s: State, e: Event, id: nat)
    requires id in s.sessions && e != CloseSession(id)
    ensures id in Step(s, e).sessions
  {
    hide Identity, MayEnd, Asks;
  }
}
