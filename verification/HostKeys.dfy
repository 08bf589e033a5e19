/** Host-key confirmation: every connection checks each key the server shows, at the first handshake
    and at every rekey (section 9 of RFC 4253); an unknown key may be put to the user once. */
module HostKeys {
  import opened Basics

  datatype HostKey = HostKey(algorithm: string, fingerprint: string)

  function Identity(k: HostKey): string {
    k.algorithm + "|" + k.fingerprint
  }

  /** Fingerprints are base64 text without a bar, so identities tell keys apart. */
  lemma IdentityIsInjective(a: HostKey, b: HostKey)
    requires '|' !in a.fingerprint && '|' !in b.fingerprint && Identity(a) == Identity(b)
    ensures a == b
  {
    var s := Identity(a);
    LastBar(a);
    LastBar(b);
    assert a.algorithm == s[..|a.algorithm|] && b.algorithm == s[..|b.algorithm|];
    assert a.fingerprint == s[|a.algorithm| + 1..] && b.fingerprint == s[|b.algorithm| + 1..];
  }

  lemma LastBar(k: HostKey)
    requires '|' !in k.fingerprint
    ensures Identity(k)[|k.algorithm|] == '|'
    ensures forall i :: |k.algorithm| < i < |Identity(k)| ==> Identity(k)[i] != '|'
  {
    forall i | |k.algorithm| < i < |Identity(k)| ensures Identity(k)[i] != '|' {
      assert Identity(k)[i] == k.fingerprint[i - |k.algorithm| - 1];
    }
  }

  // ---- The handler of one connection ----

  datatype Handler = Handler(trusted: set<string>, observed: Option<HostKey>, acceptUnknown: bool)

  /** The handler after a key is shown, and whether the key is accepted. */
  function Checked(h: Handler, key: HostKey): (Handler, bool) {
    var known := Identity(key) in h.trusted;
    if !h.acceptUnknown then (h.(observed := Some(key)), known)
    else if h.observed.None? then (h.(observed := Some(key)), true)
    else (h, known || Identity(h.observed.value) == Identity(key))
  }

  class HostKeyHandler {
    const trusted: set<string>
    const acceptUnknown: bool
    var observed: Option<HostKey>

    function Value(): Handler
      reads this
    {
      Handler(trusted, observed, acceptUnknown)
    }

    constructor (trusted: set<string>, acceptUnknown: bool)
      ensures Value() == Handler(trusted, None, acceptUnknown)
    {
      this.trusted, this.acceptUnknown, observed := trusted, acceptUnknown, None;
    }

    method CheckServerKey(key: HostKey) returns (accepted: bool)
      modifies this`observed
      ensures (Value(), accepted) == Checked(old(Value()), key)
    {
      var identity := Identity(key);
      var confirmationMatch := false;
      if acceptUnknown {
        match observed {
          case Some(expected) => confirmationMatch := Identity(expected) == identity;
          case None =>
            observed := Some(key);
            confirmationMatch := true;
        }
      } else {
        observed := Some(key);
      }
      accepted := identity in trusted || confirmationMatch;
    }
  }

  /** The verdicts on a series of keys. */
  function Verdicts(h: Handler, keys: seq<HostKey>): (verdicts: seq<bool>)
    ensures |verdicts| == |keys|
    decreases |keys|
  {
    if keys == [] then [] else [Checked(h, keys[0]).1] + Verdicts(Checked(h, keys[0]).0, keys[1..])
  }

  /** A handler that may ask the user accepts exactly the repetitions of the first key it saw. */
  lemma {:induction false} FirstKeyIsPinned(keys: seq<HostKey>, i: nat)
    requires i < |keys|
    ensures Verdicts(Handler({}, None, true), keys)[i] <==> Identity(keys[i]) == Identity(keys[0])
  {
    if i > 0 {
      PinnedKeyOnly(keys[0], keys[1..], i - 1);
    }
  }

  lemma {:induction false} PinnedKeyOnly(first: HostKey, keys: seq<HostKey>, i: nat)
    requires i < |keys|
    ensures Verdicts(Handler({}, Some(first), true), keys)[i] <==> Identity(keys[i]) == Identity(first)
  {
    if i > 0 {
      PinnedKeyOnly(first, keys[1..], i - 1);
    }
  }

  /** A handler that may not ask accepts exactly the trusted keys; with an empty list, none. */
  lemma {:induction false} OnlyTrustedKeys(h: Handler, keys: seq<HostKey>, i: nat)
    requires !h.acceptUnknown && i < |keys|
    ensures Verdicts(h, keys)[i] <==> Identity(keys[i]) in h.trusted
    decreases |keys|
  {
    if i > 0 {
      OnlyTrustedKeys(Checked(h, keys[0]).0, keys[1..], i - 1);
    }
  }

  // ---- All connections and the registries they wait in ----

  /** A direct terminal connection, a jump host, a terminal connection through jump hosts, or a file
      transfer connection. */
  datatype Kind = Direct | Hop | Target | Sftp

  datatype Phase =
    | Handshaking
    | AwaitingApproval(id: nat)
    | Authenticating
    | AwaitingResponses(id: nat)
    | Responding(id: nat)
    | Opening
    | InSession(id: nat)
    | CarryingNext
    | Closed

  /** `accepted` lists every host key accepted so far; `returned` is the key put to the caller;
      `attempted` records that credentials have been offered. */
  datatype Conn = Conn(kind: Kind, via: Option<nat>, handler: Handler, alive: bool, accepted: seq<HostKey>,
    returned: Option<HostKey>, attempted: bool, phase: Phase)

  datatype State = State(conns: seq<Conn>, hostKeys: map<nat, nat>, auths: map<nat, nat>, sessions: map<nat, nat>,
    nextId: nat)

  datatype AuthResult = Complete | Challenge | Refused

  datatype Event =
    | Connect(kind: Kind, trusted: set<string>)
    | ConnectThrough(hop: nat, last: bool, trusted: set<string>)
    | ServerKey(conn: nat, key: HostKey)
    | HandshakeEnds(conn: nat, ok: bool)
    | ContinueHostKey(id: nat, approve: bool)
    | ConfirmationTimeout(id: nat)
    | AuthEnds(conn: nat, result: AuthResult)
    | ContinueAuth(id: nat)
    | ResponseEnds(conn: nat, result: AuthResult)
    | ChannelEnds(conn: nat, ok: bool)
    | CloseSession(id: nat)

  const START := State([], map[], map[], map[], 1)

  function NewConn(kind: Kind, via: Option<nat>, trusted: set<string>): Conn {
    Conn(kind, via, Handler(trusted, None, kind.Direct? && trusted == {}), true, [], None, false, Handshaking)
  }

  predicate At(s: State, c: nat, phase: Phase) {
    c < |s.conns| && s.conns[c].phase == phase
  }

  function Moved(s: State, c: nat, phase: Phase): State
    requires c < |s.conns|
  {
    s.(conns := s.conns[c := s.conns[c].(phase := phase)])
  }

  function StartAuth(s: State, c: nat): State
    requires c < |s.conns|
  {
    s.(conns := s.conns[c := s.conns[c].(phase := Authenticating, attempted := true)])
  }

  function Consume(s: State, id: nat): State
    requires id in s.hostKeys
  {
    s.(hostKeys := s.hostKeys - {id})
  }

  function KeyShown(s: State, c: nat, key: HostKey): State
    requires c < |s.conns|
  {
    var conn := s.conns[c];
    var (handler, ok) := Checked(conn.handler, key);
    var next := if ok then conn.(handler := handler, accepted := conn.accepted + [key])
                else conn.(handler := handler, alive := false);
    s.(conns := s.conns[c := next])
  }

  /** The observed key is put to the caller, and the connection waits under a new id. */
  function Asked(s: State, c: nat): State
    requires c < |s.conns|
  {
    var conn := s.conns[c];
    s.(conns := s.conns[c := conn.(phase := AwaitingApproval(s.nextId), returned := conn.handler.observed)],
       hostKeys := s.hostKeys[s.nextId := c], nextId := s.nextId + 1)
  }

  predicate Asks(conn: Conn) {
    conn.kind.Direct? && conn.handler.trusted == {}
  }

  /** The transport completes a handshake only after the handler has accepted a key (section 8 of
      RFC 4253); the code itself makes sure of it where it asks the caller. */
  predicate MayEnd(conn: Conn, ok: bool) {
    ok && conn.alive ==> conn.accepted != [] || Asks(conn)
  }

  /** A direct connection without trusted keys asks the caller; every other one authenticates. */
  function AfterHandshake(s: State, c: nat, ok: bool): State
    requires c < |s.conns|
  {
    var conn := s.conns[c];
    if !ok || !conn.alive then Moved(s, c, Closed)
    else if Asks(conn) then
      if conn.handler.observed.None? then Moved(s, c, Closed) else Asked(s, c)
    else StartAuth(s, c)
  }

  function HostKeyContinued(s: State, id: nat, approve: bool): State {
    if id !in s.hostKeys || s.hostKeys[id] >= |s.conns| then s
    else if approve then StartAuth(Consume(s, id), s.hostKeys[id])
    else Moved(Consume(s, id), s.hostKeys[id], Closed)
  }

  function TimedOut(s: State, id: nat): State {
    if id !in s.hostKeys || s.hostKeys[id] >= |s.conns| then s
    else Moved(Consume(s, id), s.hostKeys[id], Closed)
  }

  function Challenged(s: State, c: nat): State
    requires c < |s.conns|
  {
    Moved(s, c, AwaitingResponses(s.nextId)).(auths := s.auths[s.nextId := c], nextId := s.nextId + 1)
  }

  function SessionOpened(s: State, c: nat): State
    requires c < |s.conns|
  {
    Moved(s, c, InSession(s.nextId)).(sessions := s.sessions[s.nextId := c], nextId := s.nextId + 1)
  }

  /** Only a direct connection answers challenges; a jump host then carries the next connection. */
  function AuthEnded(s: State, c: nat, result: AuthResult): State
    requires c < |s.conns|
  {
    var conn := s.conns[c];
    if result.Refused? || !conn.alive then Moved(s, c, Closed)
    else if result.Complete? then Moved(s, c, if conn.kind.Hop? then CarryingNext else Opening)
    else if conn.kind.Direct? then Challenged(s, c)
    else Moved(s, c, Closed)
  }

  function AuthContinued(s: State, id: nat): State {
    if id !in s.auths || s.auths[id] >= |s.conns| then s
    else Moved(s, s.auths[id], Responding(id)).(auths := s.auths - {id})
  }

  function ResponseEnded(s: State, c: nat, result: AuthResult): State
    requires c < |s.conns| && s.conns[c].phase.Responding?
  {
    var conn := s.conns[c];
    if result.Refused? || !conn.alive then Moved(s, c, Closed)
    else if result.Complete? then Moved(s, c, Opening)
    else Moved(s, c, AwaitingResponses(conn.phase.id)).(auths := s.auths[conn.phase.id := c])
  }

  function ChannelEnded(s: State, c: nat, ok: bool): State
    requires c < |s.conns|
  {
    if !ok || !s.conns[c].alive then Moved(s, c, Closed)
    else SessionOpened(s, c)
  }

  function SessionClosed(s: State, id: nat): State {
    if id !in s.sessions || s.sessions[id] >= |s.conns| then s
    else Moved(s, s.sessions[id], Closed).(sessions := s.sessions - {id})
  }

  function Step(s: State, e: Event): State {
    match e
    case Connect(kind, trusted) => if kind.Target? then s else s.(conns := s.conns + [NewConn(kind, None, trusted)])
    case ConnectThrough(hop, last, trusted) =>
      if At(s, hop, CarryingNext) && s.conns[hop].alive
      then s.(conns := s.conns + [NewConn(if last then Target else Hop, Some(hop), trusted)])
      else s
    case ServerKey(c, key) =>
      if c < |s.conns| && s.conns[c].alive && !s.conns[c].phase.Closed? then KeyShown(s, c, key) else s
    case HandshakeEnds(c, ok) =>
      if At(s, c, Handshaking) && MayEnd(s.conns[c], ok) then AfterHandshake(s, c, ok) else s
    case ContinueHostKey(id, approve) => HostKeyContinued(s, id, approve)
    case ConfirmationTimeout(id) => TimedOut(s, id)
    case AuthEnds(c, result) => if At(s, c, Authenticating) then AuthEnded(s, c, result) else s
    case ContinueAuth(id) => AuthContinued(s, id)
    case ResponseEnds(c, result) =>
      if c < |s.conns| && s.conns[c].phase.Responding? then ResponseEnded(s, c, result) else s
    case ChannelEnds(c, ok) => if At(s, c, Opening) then ChannelEnded(s, c, ok) else s
    case CloseSession(id) => SessionClosed(s, id)
  }

  function Run(s: State, events: seq<Event>): State
    decreases |events|
  {
    if events == [] then s else Run(Step(s, events[0]), events[1..])
  }

  // ---- Trust ----

  ghost predicate AllIn(keys: seq<HostKey>, trusted: set<string>) {
    forall i :: 0 <= i < |keys| ==> Identity(keys[i]) in trusted
  }

  ghost predicate AllAre(keys: seq<HostKey>, identity: string) {
    forall i :: 0 <= i < |keys| ==> Identity(keys[i]) == identity
  }

  // ---- Invariant ----

  ghost predicate HandlerInv(conn: Conn) {
    && (conn.handler.acceptUnknown <==> conn.kind.Direct? && conn.handler.trusted == {})
    && (!conn.handler.acceptUnknown ==> AllIn(conn.accepted, conn.handler.trusted))
    && (conn.handler.acceptUnknown ==> (conn.accepted != [] <==> conn.handler.observed.Some?))
    && (conn.handler.acceptUnknown && conn.handler.observed.Some? ==>
        AllAre(conn.accepted, Identity(conn.handler.observed.value)))
  }

  predicate Started(phase: Phase) {
    !phase.Handshaking? && !phase.AwaitingApproval? && !phase.Closed?
  }

  ghost predicate ConnInv(conn: Conn) {
    && HandlerInv(conn)
    && (conn.returned.Some? ==> conn.handler.acceptUnknown && conn.handler.observed == conn.returned)
    && (conn.phase.AwaitingApproval? ==> conn.returned.Some?)
    && (Started(conn.phase) ==> conn.attempted)
    && (conn.attempted ==> conn.accepted != [])
    && (conn.attempted && conn.handler.acceptUnknown ==> conn.returned.Some?)
    && (conn.phase.Handshaking? || conn.phase.AwaitingApproval? ==> !conn.attempted)
  }

  ghost predicate LinkInv(s: State, c: nat)
    requires c < |s.conns|
  {
    var conn := s.conns[c];
    conn.via.Some? ==> conn.via.value < c && s.conns[conn.via.value].attempted
  }

  ghost predicate ConnsInv(s: State) {
    forall c :: 0 <= c < |s.conns| ==> ConnInv(s.conns[c]) && LinkInv(s, c)
  }

  ghost predicate HostKeysInv(s: State) {
    forall id :: id in s.hostKeys ==> id < s.nextId && At(s, s.hostKeys[id], AwaitingApproval(id))
  }

  ghost predicate SessionsInv(s: State) {
    forall id :: id in s.sessions ==> At(s, s.sessions[id], InSession(id))
  }

  ghost predicate AuthsInv(s: State) {
    forall id :: id in s.auths ==> At(s, s.auths[id], AwaitingResponses(id))
  }

  ghost predicate Inv(s: State) {
    ConnsInv(s) && HostKeysInv(s) && AuthsInv(s) && SessionsInv(s)
  }

  /** Appending a connection keeps everything about the others. */
  lemma NewConnKeeps(s: State, conn: Conn)
    requires Inv(s) && ConnInv(conn)
    requires conn.via.Some? ==> conn.via.value < |s.conns| && s.conns[conn.via.value].attempted
    ensures Inv(s.(conns := s.conns + [conn]))
  {
    hide ConnInv;
  }

  /** Replacing one connection, without touching the registries that point at it. */
  lemma ConnReplaced(s: State, c: nat, conn: Conn)
    requires ConnsInv(s) && c < |s.conns| && ConnInv(conn)
    requires conn.via == s.conns[c].via && (s.conns[c].attempted ==> conn.attempted)
    ensures ConnsInv(s.(conns := s.conns[c := conn]))
  {
    hide ConnInv;
  }

  /** What the registries need of a replaced connection: nothing when its phase is the same. */
  lemma RegistriesKept(s: State, c: nat, conn: Conn)
    requires HostKeysInv(s) && AuthsInv(s) && SessionsInv(s) && c < |s.conns|
    requires conn.phase == s.conns[c].phase ||
      (!s.conns[c].phase.AwaitingApproval? && !s.conns[c].phase.AwaitingResponses? && !s.conns[c].phase.InSession?)
    ensures var s' := s.(conns := s.conns[c := conn]);
      HostKeysInv(s') && AuthsInv(s') && SessionsInv(s')
  {
  }

  lemma KeyShownKeepsConn(conn: Conn, key: HostKey)
    requires ConnInv(conn)
    ensures var (handler, ok) := Checked(conn.handler, key);
      && (ok ==> ConnInv(conn.(handler := handler, accepted := conn.accepted + [key])))
      && (!ok ==> ConnInv(conn.(handler := handler, alive := false)))
  {
    hide Identity;
  }

  lemma KeyShownKeeps(s: State, c: nat, key: HostKey)
    requires Inv(s) && c < |s.conns|
    ensures Inv(KeyShown(s, c, key))
  {
    var conn := s.conns[c];
    KeyShownKeepsConn(conn, key);
    var next := KeyShown(s, c, key).conns[c];
    assert LinkInv(s, c);
    hide ConnInv, HandlerInv, Checked;
    RegistriesKept(s, c, next);
    ConnReplaced(s, c, next);
    hide ConnsInv, HostKeysInv, AuthsInv, SessionsInv;
  }

  /** A connection that no registry points at may change phase freely. */
  lemma MoveKeeps(s: State, c: nat, phase: Phase)
    requires Inv(s) && c < |s.conns|
    requires !s.conns[c].phase.AwaitingApproval? && !s.conns[c].phase.AwaitingResponses? && !s.conns[c].phase.InSession?
    requires !phase.Handshaking? && !phase.AwaitingApproval? && (Started(phase) ==> s.conns[c].attempted)
    ensures Inv(Moved(s, c, phase))
  {
    var next := s.conns[c].(phase := phase);
    assert ConnInv(next) && LinkInv(s, c);
    hide ConnInv, HandlerInv;
    RegistriesKept(s, c, next);
    ConnReplaced(s, c, next);
    hide ConnsInv, HostKeysInv, AuthsInv, SessionsInv;
  }

  lemma StartAuthKeeps(s: State, c: nat)
    requires Inv(s) && At(s, c, Handshaking) && !Asks(s.conns[c]) && s.conns[c].accepted != []
    ensures Inv(StartAuth(s, c))
  {
    var next := s.conns[c].(phase := Authenticating, attempted := true);
    assert ConnInv(next) && LinkInv(s, c);
    hide ConnInv, HandlerInv;
    RegistriesKept(s, c, next);
    ConnReplaced(s, c, next);
    hide ConnsInv, HostKeysInv, AuthsInv, SessionsInv;
  }

  /** Putting the observed key to the caller. */
  lemma AskKeeps(s: State, c: nat)
    requires Inv(s) && At(s, c, Handshaking)
    requires Asks(s.conns[c]) && s.conns[c].handler.observed.Some?
    ensures Inv(Asked(s, c))
  {
    hide ConnInv, LinkInv;
    var conn := s.conns[c];
    assert ConnInv(conn);
    var next := conn.(phase := AwaitingApproval(s.nextId), returned := conn.handler.observed);
    AskedConn(conn, s.nextId);
    hide Asks;
    RegistriesKept(s, c, next);
    ConnReplaced(s, c, next);
    var s1 := s.(conns := s.conns[c := next]);
    AskedState(s, c);
    hide ConnsInv, HostKeysInv, AuthsInv, SessionsInv, At, Asked;
    Issued(s1, c);
    ConnsOnly(s1, s1.(hostKeys := s.hostKeys[s.nextId := c], nextId := s.nextId + 1));
  }

  lemma AskedConn(conn: Conn, id: nat)
    requires ConnInv(conn) && conn.phase.Handshaking? && Asks(conn) && conn.handler.observed.Some?
    ensures ConnInv(conn.(phase := AwaitingApproval(id), returned := conn.handler.observed))
  {
  }

  lemma AskedState(s: State, c: nat)
    requires c < |s.conns|
    ensures var conn := s.conns[c];
      var s1 := s.(conns := s.conns[c := conn.(phase := AwaitingApproval(s.nextId), returned := conn.handler.observed)]);
      At(s1, c, AwaitingApproval(s.nextId)) && Asked(s, c) == s1.(hostKeys := s.hostKeys[s.nextId := c], nextId := s.nextId + 1)
  {
  }

  lemma ConnsOnly(s: State, s': State)
    requires ConnsInv(s) && s'.conns == s.conns
    ensures ConnsInv(s')
  {
    hide ConnInv;
    forall c | 0 <= c < |s'.conns| ensures ConnInv(s'.conns[c]) && LinkInv(s', c) {
      assert LinkInv(s, c);
    }
  }

  /** A new id may be registered for a connection waiting under that id. */
  lemma Issued(s: State, c: nat)
    requires HostKeysInv(s) && AuthsInv(s) && SessionsInv(s) && At(s, c, AwaitingApproval(s.nextId))
    ensures var s' := s.(hostKeys := s.hostKeys[s.nextId := c], nextId := s.nextId + 1);
      HostKeysInv(s') && AuthsInv(s') && SessionsInv(s')
  {
  }

  lemma HandshakeKeeps(s: State, c: nat, ok: bool)
    requires Inv(s) && At(s, c, Handshaking) && MayEnd(s.conns[c], ok)
    ensures Inv(AfterHandshake(s, c, ok))
  {
    var conn := s.conns[c];
    hide Inv, Moved, Asked, StartAuth;
    if !ok || !conn.alive {
      MoveKeeps(s, c, Closed);
    } else if Asks(conn) {
      if conn.handler.observed.None? {
        MoveKeeps(s, c, Closed);
      } else {
        AskKeeps(s, c);
      }
    } else {
      StartAuthKeeps(s, c);
    }
  }

  lemma ConsumeKeeps(s: State, id: nat, conn: Conn)
    requires Inv(s) && id in s.hostKeys
    requires var old' := s.conns[s.hostKeys[id]];
      ConnInv(conn) && conn.via == old'.via && (old'.attempted ==> conn.attempted) && !conn.phase.AwaitingApproval?
    ensures var s' := Consume(s, id); Inv(s'.(conns := s'.conns[s.hostKeys[id] := conn]))
  {
    var c := s.hostKeys[id];
    var s' := Consume(s, id);
    assert LinkInv(s, c);
    hide ConnInv, HandlerInv;
    ConnReplaced(s', c, conn);
    ConsumeKeepsRegistries(s, id, conn);
    hide ConnsInv, HostKeysInv, AuthsInv, SessionsInv;
  }

  /** The state after one pending host key is consumed and its connection updated. */
  function ConsumedBy(s: State, id: nat, conn: Conn): State
    requires id in s.hostKeys && s.hostKeys[id] < |s.conns|
  {
    Consume(s, id).(conns := s.conns[s.hostKeys[id] := conn])
  }

  lemma ConsumeKeepsRegistries(s: State, id: nat, conn: Conn)
    requires HostKeysInv(s) && AuthsInv(s) && SessionsInv(s) && id in s.hostKeys
    ensures s.hostKeys[id] < |s.conns|
    ensures var s' := ConsumedBy(s, id, conn);
      HostKeysInv(s') && AuthsInv(s') && SessionsInv(s')
  {
    assert At(s, s.hostKeys[id], AwaitingApproval(id));
    ConsumeHostKeys(s, id, conn);
    ConsumeOthers(s, id, conn);
    hide HostKeysInv, AuthsInv, SessionsInv, ConsumedBy;
  }

  lemma ConsumeHostKeys(s: State, id: nat, conn: Conn)
    requires HostKeysInv(s) && id in s.hostKeys && s.hostKeys[id] < |s.conns|
    ensures HostKeysInv(ConsumedBy(s, id, conn))
  {
  }

  lemma ConsumeOthers(s: State, id: nat, conn: Conn)
    requires HostKeysInv(s) && AuthsInv(s) && SessionsInv(s) && id in s.hostKeys && s.hostKeys[id] < |s.conns|
    ensures AuthsInv(ConsumedBy(s, id, conn)) && SessionsInv(ConsumedBy(s, id, conn))
  {
    assert At(s, s.hostKeys[id], AwaitingApproval(id));
    hide HostKeysInv;
  }

  lemma ContinueHostKeyKeeps(s: State, id: nat, approve: bool)
    requires Inv(s)
    ensures Inv(HostKeyContinued(s, id, approve))
  {
    if id in s.hostKeys {
      var c := s.hostKeys[id];
      var conn := s.conns[c];
      assert ConnInv(conn);
      if approve {
        ConsumeKeeps(s, id, conn.(phase := Authenticating, attempted := true));
      } else {
        ConsumeKeeps(s, id, conn.(phase := Closed));
      }
    }
    hide Inv, HandlerInv, ConnInv;
  }

  lemma TimeoutKeeps(s: State, id: nat)
    requires Inv(s)
    ensures Inv(TimedOut(s, id))
  {
    if id in s.hostKeys {
      var conn := s.conns[s.hostKeys[id]];
      assert ConnInv(conn);
      ConsumeKeeps(s, id, conn.(phase := Closed));
    }
    hide Inv, HandlerInv, ConnInv;
  }

  /** Registering an authentication challenge or a session under an id its connection already bears. */
  lemma AuthRegistered(s: State, id: nat, c: nat, nextId: nat)
    requires Inv(s) && At(s, c, AwaitingResponses(id)) && s.nextId <= nextId
    ensures Inv(s.(auths := s.auths[id := c], nextId := nextId))
  {
    hide ConnInv;
  }

  lemma SessionRegistered(s: State, id: nat, c: nat, nextId: nat)
    requires Inv(s) && At(s, c, InSession(id)) && s.nextId <= nextId
    ensures Inv(s.(sessions := s.sessions[id := c], nextId := nextId))
  {
    hide ConnInv;
  }

  lemma Attempted(s: State, c: nat)
    requires Inv(s) && c < |s.conns| && Started(s.conns[c].phase)
    ensures s.conns[c].attempted
  {
    assert ConnInv(s.conns[c]);
  }

  lemma AuthKeeps(s: State, c: nat, result: AuthResult)
    requires Inv(s) && At(s, c, Authenticating)
    ensures Inv(AuthEnded(s, c, result))
  {
    Attempted(s, c);
    hide Inv, Moved, Challenged;
    var conn := s.conns[c];
    if result.Refused? || !conn.alive {
      MoveKeeps(s, c, Closed);
    } else if result.Complete? {
      MoveKeeps(s, c, if conn.kind.Hop? then CarryingNext else Opening);
    } else if conn.kind.Direct? {
      ChallengeKeeps(s, c);
    } else {
      MoveKeeps(s, c, Closed);
    }
  }

  lemma MovedAt(s: State, c: nat, phase: Phase)
    requires c < |s.conns|
    ensures var s' := Moved(s, c, phase); At(s', c, phase) && s' == s.(conns := s'.conns)
  {
  }

  lemma ResponseKeeps(s: State, c: nat, result: AuthResult)
    requires Inv(s) && c < |s.conns| && s.conns[c].phase.Responding?
    ensures Inv(ResponseEnded(s, c, result))
  {
    Attempted(s, c);
    hide Inv, Moved;
    var id := s.conns[c].phase.id;
    MoveKeeps(s, c, Closed);
    MoveKeeps(s, c, Opening);
    MoveKeeps(s, c, AwaitingResponses(id));
    MovedAt(s, c, AwaitingResponses(id));
    AuthRegistered(Moved(s, c, AwaitingResponses(id)), id, c, s.nextId);
  }

  lemma ChannelKeeps(s: State, c: nat, ok: bool)
    requires Inv(s) && At(s, c, Opening)
    ensures Inv(ChannelEnded(s, c, ok))
  {
    Attempted(s, c);
    hide Inv, Moved, SessionOpened;
    MoveKeeps(s, c, Closed);
    SessionKeeps(s, c);
  }

  lemma ChallengeKeeps(s: State, c: nat)
    requires Inv(s) && At(s, c, Authenticating) && s.conns[c].attempted
    ensures Inv(Challenged(s, c))
  {
    hide Inv, Moved;
    MoveKeeps(s, c, AwaitingResponses(s.nextId));
    MovedAt(s, c, AwaitingResponses(s.nextId));
    AuthRegistered(Moved(s, c, AwaitingResponses(s.nextId)), s.nextId, c, s.nextId + 1);
  }

  lemma SessionKeeps(s: State, c: nat)
    requires Inv(s) && At(s, c, Opening) && s.conns[c].attempted
    ensures Inv(SessionOpened(s, c))
  {
    hide Inv, Moved;
    MoveKeeps(s, c, InSession(s.nextId));
    MovedAt(s, c, InSession(s.nextId));
    SessionRegistered(Moved(s, c, InSession(s.nextId)), s.nextId, c, s.nextId + 1);
  }

  /** Taking a connection out of the authentication or session registry. */
  lemma UnregisterKeeps(s: State, c: nat, conn: Conn, auths: map<nat, nat>, sessions: map<nat, nat>)
    requires Inv(s) && c < |s.conns| && ConnInv(conn) && !s.conns[c].phase.AwaitingApproval?
    requires conn == s.conns[c].(phase := conn.phase)
    requires forall id :: id in auths ==> id in s.auths && auths[id] == s.auths[id] && auths[id] != c
    requires forall id :: id in sessions ==> id in s.sessions && sessions[id] == s.sessions[id] && sessions[id] != c
    ensures Inv(s.(conns := s.conns[c := conn], auths := auths, sessions := sessions))
  {
    assert LinkInv(s, c);
    hide ConnInv, HandlerInv;
    ConnReplaced(s, c, conn);
    assert ConnsInv(s.(conns := s.conns[c := conn], auths := auths, sessions := sessions)) by {
      assert ConnsInv(s.(conns := s.conns[c := conn]));
    }
    UnregisterRegistries(s, c, conn, auths, sessions);
    hide ConnsInv, HostKeysInv, AuthsInv, SessionsInv;
  }

  lemma UnregisterRegistries(s: State, c: nat, conn: Conn, auths: map<nat, nat>, sessions: map<nat, nat>)
    requires HostKeysInv(s) && AuthsInv(s) && SessionsInv(s)
    requires c < |s.conns| && !s.conns[c].phase.AwaitingApproval?
    requires forall id :: id in auths ==> id in s.auths && auths[id] == s.auths[id] && auths[id] != c
    requires forall id :: id in sessions ==> id in s.sessions && sessions[id] == s.sessions[id] && sessions[id] != c
    ensures var s' := s.(conns := s.conns[c := conn], auths := auths, sessions := sessions);
      HostKeysInv(s') && AuthsInv(s') && SessionsInv(s')
  {
  }

  lemma ContinueAuthKeeps(s: State, id: nat)
    requires Inv(s)
    ensures Inv(AuthContinued(s, id))
  {
    if id in s.auths {
      var c := s.auths[id];
      assert At(s, c, AwaitingResponses(id));
      var next := s.conns[c].(phase := Responding(id));
      assert ConnInv(s.conns[c]);
      UnregisterKeeps(s, c, next, s.auths - {id}, s.sessions);
    }
    hide Inv, HandlerInv, ConnInv;
  }

  lemma CloseKeeps(s: State, id: nat)
    requires Inv(s)
    ensures Inv(SessionClosed(s, id))
  {
    if id in s.sessions {
      var c := s.sessions[id];
      assert At(s, c, InSession(id));
      var next := s.conns[c].(phase := Closed);
      assert ConnInv(s.conns[c]);
      UnregisterKeeps(s, c, next, s.auths, s.sessions - {id});
    }
    hide Inv, HandlerInv, ConnInv;
  }

  lemma ConnectKeeps(s: State, e: Event)
    requires Inv(s) && (e.Connect? || e.ConnectThrough?)
    ensures Inv(Step(s, e))
  {
    if e.ConnectThrough? {
      if At(s, e.hop, CarryingNext) {
        Attempted(s, e.hop);
        NewConnKeeps(s, NewConn(if e.last then Target else Hop, Some(e.hop), e.trusted));
      }
    } else {
      NewConnKeeps(s, NewConn(e.kind, None, e.trusted));
    }
    hide Inv;
  }

  lemma StepKeeps(s: State, e: Event)
    requires Inv(s)
    ensures Inv(Step(s, e))
  {
    hide Inv, KeyShown, AfterHandshake, HostKeyContinued, TimedOut, AuthEnded, AuthContinued, ResponseEnded,
         ChannelEnded, SessionClosed, NewConn;
    match e {
      case Connect(_, _) => ConnectKeeps(s, e);
      case ConnectThrough(_, _, _) => ConnectKeeps(s, e);
      case ServerKey(c, key) => if c < |s.conns| { KeyShownKeeps(s, c, key); }
      case HandshakeEnds(c, ok) => if At(s, c, Handshaking) && MayEnd(s.conns[c], ok) { HandshakeKeeps(s, c, ok); }
      case ContinueHostKey(id, approve) => ContinueHostKeyKeeps(s, id, approve);
      case ConfirmationTimeout(id) => TimeoutKeeps(s, id);
      case AuthEnds(c, result) => if At(s, c, Authenticating) { AuthKeeps(s, c, result); }
      case ContinueAuth(id) => ContinueAuthKeeps(s, id);
      case ResponseEnds(c, result) =>
        if c < |s.conns| && s.conns[c].phase.Responding? { ResponseKeeps(s, c, result); }
      case ChannelEnds(c, ok) => if At(s, c, Opening) { ChannelKeeps(s, c, ok); }
      case CloseSession(id) => CloseKeeps(s, id);
    }
  }

  lemma {:induction false} RunKeeps(s: State, events: seq<Event>)
    requires Inv(s)
    ensures Inv(Run(s, events))
    decreases |events|
  {
    hide Step, Inv;
    if events != [] {
      StepKeeps(s, events[0]);
      RunKeeps(Step(s, events[0]), events[1..]);
    }
  }

  lemma Reachable(events: seq<Event>)
    ensures Inv(Run(START, events))
  {
    assert Inv(START);
    RunKeeps(START, events);
    hide Run, Inv;
  }
}
