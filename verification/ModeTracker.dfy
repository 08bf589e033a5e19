/** The terminal mode tracker: a four-state recogniser of private mode settings in the output stream. */
module ModeTracker {
  import opened Basics

  const ESC: byte := 0x1B
  const BRACKET: byte := 0x5B
  const QUESTION: byte := 0x3F
  const SEMICOLON: byte := 0x3B
  const SET: byte := 0x68
  const UNSET: byte := 0x6C
  const MAX_PARAMETERS: nat := 64
  const MAX_INT: nat := 2147483647

  predicate IsDigit(b: byte) {
    0x30 <= b <= 0x39
  }

  predicate IsParameter(b: byte) {
    IsDigit(b) || b == SEMICOLON
  }

  predicate IsFinal(b: byte) {
    b == SET || b == UNSET
  }

  // ---- Parameters ----

  /** The parts between semicolons. */
  function Split(p: seq<byte>): (parts: seq<seq<byte>>)
    ensures parts != []
  {
    if p == [] then [[]] else
      var rest := Split(p[1..]);
      if p[0] == SEMICOLON then [[]] + rest else [[p[0]] + rest[0]] + rest[1..]
  }

  function Join(parts: seq<seq<byte>>): seq<byte>
    requires parts != []
  {
    if |parts| == 1 then parts[0] else parts[0] + [SEMICOLON] + Join(parts[1..])
  }

  ghost predicate NoSemicolons(parts: seq<seq<byte>>) {
    forall i :: 0 <= i < |parts| ==> SEMICOLON !in parts[i]
  }

  /** Splitting is the inverse of joining parts without semicolons. */
  lemma {:induction false} SplitRebuilds(p: seq<byte>)
    ensures NoSemicolons(Split(p)) && Join(Split(p)) == p
  {
    if p != [] {
      SplitRebuilds(p[1..]);
      var rest := Split(p[1..]);
      if p[0] == SEMICOLON {
        assert ([[]] + rest)[1..] == rest;
        assert Split(p) == [[]] + rest && Join(Split(p)) == [] + [SEMICOLON] + Join(rest);
      } else {
        assert Split(p) == [[p[0]] + rest[0]] + rest[1..];
        assert Split(p)[1..] == rest[1..];
        assert Join(Split(p)) == [p[0]] + Join(rest);
      }
      assert p == [p[0]] + p[1..];
    }
  }

  function Decimal(digits: seq<byte>): nat {
    if digits == [] then 0 else Decimal(digits[..|digits| - 1]) * 10 + Digit(digits[|digits| - 1])
  }

  function Digit(b: byte): nat {
    if IsDigit(b) then b - 0x30 else 0
  }

  /** A part counts only when it is a number a 32-bit integer can hold; leading zeros are allowed. */
  function Number(part: seq<byte>): Option<nat> {
    if part == [] || Decimal(part) > MAX_INT then None else Some(Decimal(part))
  }

  ghost predicate AllDigits(part: seq<byte>) {
    forall i :: 0 <= i < |part| ==> 0x30 <= part[i] <= 0x39
  }

  function Power10(n: nat): nat {
    if n == 0 then 1 else 10 * Power10(n - 1)
  }

  /** What a numeral says, digit by digit from the left, each worth ten times the next. */
  function Positional(digits: seq<byte>): int {
    if digits == [] then 0 else (digits[0] as int - 0x30) * Power10(|digits| - 1) + Positional(digits[1..])
  }

  lemma {:induction false} PositionalAppend(front: seq<byte>, last: byte)
    ensures Positional(front + [last]) == Positional(front) * 10 + (last as int - 0x30)
    decreases |front|
  {
    if front == [] {
      assert [] + [last] == [last] && [last][1..] == [];
    } else {
      assert (front + [last])[1..] == front[1..] + [last];
      PositionalAppend(front[1..], last);
      var d, power := front[0] as int - 0x30, Power10(|front| - 1);
      assert Power10(|front|) == 10 * power;
      assert d * (10 * power) == (d * power) * 10;
    }
  }

  lemma {:induction false} DecimalIsPositional(part: seq<byte>)
    requires AllDigits(part)
    ensures Decimal(part) == Positional(part)
    decreases |part|
  {
    if part != [] {
      var front, last := part[..|part| - 1], part[|part| - 1];
      assert part == front + [last];
      DecimalIsPositional(front);
      PositionalAppend(front, last);
    }
  }

  /** A part of digits counts as what it says in decimal notation, unless it is empty or too large for a signed
      32-bit integer; leading zeros do not matter. */
  lemma NumberIsNumeral(part: seq<byte>)
    requires AllDigits(part)
    ensures Number(part) == if part == [] || Positional(part) >= 0x8000_0000 then None else Some(Positional(part))
  {
    DecimalIsPositional(part);
    hide Decimal, Positional;
  }

  /** The parts of parameters consist of digits. */
  lemma {:induction false} PartsAreDigits(p: seq<byte>)
    requires Parameters(p)
    ensures forall i :: 0 <= i < |Split(p)| ==> AllDigits(Split(p)[i])
    decreases |p|
  {
    if p != [] {
      PartsAreDigits(p[1..]);
    }
  }

  // ---- Modes ----

  datatype Modes = Modes(cursorKeys: bool, bracketedPaste: bool, sgrMouse: bool,
    mouse1000: bool, mouse1002: bool, mouse1003: bool, mouseActive: bool)

  const ALL_OFF := Modes(false, false, false, false, false, false, false)

  function Assign(m: Modes, mode: nat, enabled: bool): Modes {
    if mode == 1 then m.(cursorKeys := enabled)
    else if mode == 1000 then m.(mouse1000 := enabled)
    else if mode == 1002 then m.(mouse1002 := enabled)
    else if mode == 1003 then m.(mouse1003 := enabled)
    else if mode == 1006 then m.(sgrMouse := enabled)
    else if mode == 2004 then m.(bracketedPaste := enabled)
    else m
  }

  function AssignParts(m: Modes, parts: seq<seq<byte>>, enabled: bool): Modes {
    if parts == [] then m else
      var before := AssignParts(m, parts[..|parts| - 1], enabled);
      match Number(parts[|parts| - 1])
      case None => before
      case Some(mode) => Assign(before, mode, enabled)
  }

  function WithMouse(m: Modes): Modes {
    m.(mouseActive := m.mouse1000 || m.mouse1002 || m.mouse1003)
  }

  function Updated(m: Modes, parameters: seq<byte>, enabled: bool): Modes {
    WithMouse(AssignParts(m, Split(parameters), enabled))
  }

  // ---- The recogniser ----

  datatype Tracker = Tracker(state: nat, buffer: seq<byte>, modes: Modes)

  const START := Tracker(0, [], ALL_OFF)

  function Fed(t: Tracker, b: byte): Tracker {
    if t.state == 0 then if b == ESC then t.(state := 1) else t
    else if t.state == 1 then t.(state := if b == BRACKET then 2 else if b == ESC then 1 else 0)
    else if t.state == 2 then
      if b == QUESTION then t.(state := 3, buffer := []) else t.(state := if b == ESC then 1 else 0)
    else if IsParameter(b) then
      if |t.buffer| < MAX_PARAMETERS then t.(buffer := t.buffer + [b]) else t.(state := 0, buffer := [])
    else if IsFinal(b) then Tracker(0, [], Updated(t.modes, t.buffer, b == SET))
    else t.(state := if b == ESC then 1 else 0, buffer := [])
  }

  function Scanned(t: Tracker, data: seq<byte>): Tracker {
    if data == [] then t else Fed(Scanned(t, data[..|data| - 1]), data[|data| - 1])
  }

  class TerminalModeTracker {
    var parserState: nat
    var parameterBuffer: seq<byte>
    var modes: Modes

    function Value(): Tracker
      reads this
    {
      Tracker(parserState, parameterBuffer, modes)
    }

    constructor ()
      ensures Value() == START
    {
      parserState, parameterBuffer, modes := 0, [], ALL_OFF;
    }

    method Reset()
      modifies this
      ensures Value() == START
    {
      parserState, parameterBuffer, modes := 0, [], ALL_OFF;
    }

    method UpdateModes(enabled: bool)
      modifies this`modes
      ensures modes == Updated(old(modes), parameterBuffer, enabled)
    {
      var parts := Split(parameterBuffer);
      for i := 0 to |parts|
        invariant modes == AssignParts(old(modes), parts[..i], enabled)
      {
        var number := Number(parts[i]);
        if number.Some? {
          modes := Assign(modes, number.value, enabled);
        }
        assert parts[..i + 1][..i] == parts[..i];
      }
      assert parts[..|parts|] == parts;
      modes := modes.(mouseActive := modes.mouse1000 || modes.mouse1002 || modes.mouse1003);
    }

    /** One byte of the stream. */
    method Feed(value: byte)
      modifies this
      ensures Value() == Fed(old(Value()), value)
    {
      match parserState {
        case 0 =>
          if value == ESC {
            parserState := 1;
          }
        case 1 => parserState := if value == BRACKET then 2 else if value == ESC then 1 else 0;
        case 2 =>
          if value == QUESTION {
            parameterBuffer := [];
            parserState := 3;
          } else {
            parserState := if value == ESC then 1 else 0;
          }
        case _ =>
          if IsParameter(value) {
            if |parameterBuffer| < MAX_PARAMETERS {
              parameterBuffer := parameterBuffer + [value];
            } else {
              parserState := 0;
              parameterBuffer := [];
            }
          } else if IsFinal(value) {
            UpdateModes(value == SET);
            parserState := 0;
            parameterBuffer := [];
          } else {
            parserState := if value == ESC then 1 else 0;
            parameterBuffer := [];
          }
      }
    }

    method Scan(data: seq<byte>)
      modifies this
      ensures Value() == Scanned(old(Value()), data)
    {
      for i := 0 to |data|
        invariant Value() == Scanned(old(Value()), data[..i])
      {
        Feed(data[i]);
        assert data[..i + 1][..i] == data[..i];
      }
      assert data[..|data|] == data;
    }
  }

  /** Where the stream is cut makes no difference. */
  lemma {:induction false} ChunksDoNotMatter(t: Tracker, a: seq<byte>, b: seq<byte>)
    ensures Scanned(Scanned(t, a), b) == Scanned(t, a + b)
  {
    hide Fed;
    if b == [] {
      assert a + b == a;
    } else {
      ChunksDoNotMatter(t, a, b[..|b| - 1]);
      assert (a + b)[..|a + b| - 1] == a + b[..|b| - 1];
    }
  }

  // ---- What is recognised, without an automaton ----

  const INTRODUCER: seq<byte> := [ESC, BRACKET, QUESTION]

  ghost predicate EndsWith(h: seq<byte>, tail: seq<byte>) {
    |tail| <= |h| && h[|h| - |tail|..] == tail
  }

  ghost predicate Parameters(p: seq<byte>) {
    |p| <= 64 && forall i :: 0 <= i < |p| ==> (0x30 <= p[i] <= 0x39) || p[i] == 0x3B
  }

  /** The stream so far ends in an unfinished setting with these parameters. */
  ghost predicate Unfinished(h: seq<byte>, p: seq<byte>) {
    Parameters(p) && EndsWith(h, INTRODUCER + p)
  }

  /** The stream so far ends in `ESC [ ?`, these parameters and `h` or `l`. */
  ghost predicate Finishes(h: seq<byte>, p: seq<byte>, enabled: bool) {
    Parameters(p) && EndsWith(h, INTRODUCER + p + [if enabled then SET else UNSET])
  }

  ghost predicate SettingEnds(h: seq<byte>, enabled: bool) {
    exists p :: Finishes(h, p, enabled)
  }

  /** The parameters of the setting that the stream ends in. */
  ghost function SettingAt(h: seq<byte>, enabled: bool): (p: seq<byte>)
    requires SettingEnds(h, enabled)
    ensures Finishes(h, p, enabled)
  {
    var p :| Finishes(h, p, enabled); p
  }

  lemma EndsWithMore(h: seq<byte>, tail: seq<byte>, b: byte, c: byte)
    ensures EndsWith(h + [b], tail + [c]) <==> b == c && EndsWith(h, tail)
  {
    var all := h + [b];
    if |tail| + 1 <= |all| {
      assert all[|all| - |tail| - 1..] == h[|h| - |tail|..] + [b];
      assert (tail + [c])[|tail|] == c;
      if h[|h| - |tail|..] + [b] == tail + [c] {
        assert (h[|h| - |tail|..] + [b])[..|tail|] == (tail + [c])[..|tail|];
      }
    }
  }

  /** The state and buffer say exactly which beginning of a setting the stream ends in. */
  lemma {:induction false} StateMeaning(t: Tracker, h: seq<byte>, p: seq<byte>)
    requires t.state == 0
    ensures var r := Scanned(t, h);
      && r.state <= 3
      && (r.state == 1 <==> EndsWith(h, [ESC]))
      && (r.state == 2 <==> EndsWith(h, [ESC, BRACKET]))
      && (r.state == 3 && r.buffer == p <==> Unfinished(h, p))
      && (r.state == 3 ==> Parameters(r.buffer))
    decreases |h|
  {
    if h == [] {
      assert !Unfinished(h, p);
    } else {
      var g, b := h[..|h| - 1], h[|h| - 1];
      assert h == g + [b];
      EndsWithMore(g, [], b, ESC);
      EndsWithMore(g, [ESC], b, BRACKET);
      assert [ESC] + [BRACKET] == [ESC, BRACKET] && [] + [ESC] == [ESC];
      UnfinishedStep(g, b, p);
      StateMeaning(t, g, if p == [] then [] else p[..|p| - 1]);
      FedState(Scanned(t, g), b, p);
    }
  }

  /** An unfinished setting is extended by one parameter or begun by the question mark. */
  lemma UnfinishedStep(g: seq<byte>, b: byte, p: seq<byte>)
    ensures Unfinished(g + [b], p) <==>
      if p == [] then b == QUESTION && EndsWith(g, [ESC, BRACKET])
      else b == p[|p| - 1] && IsParameter(b) && |p| <= MAX_PARAMETERS && Unfinished(g, p[..|p| - 1])
  {
    hide EndsWith;
    if p == [] {
      assert INTRODUCER + p == [ESC, BRACKET] + [QUESTION];
      EndsWithMore(g, [ESC, BRACKET], b, QUESTION);
    } else {
      var q, c := p[..|p| - 1], p[|p| - 1];
      assert INTRODUCER + p == INTRODUCER + q + [c];
      EndsWithMore(g, INTRODUCER + q, b, c);
      assert forall i :: 0 <= i < |q| ==> q[i] == p[i];
    }
  }

  lemma FedState(t: Tracker, b: byte, p: seq<byte>)
    requires t.state <= 3 && (t.state == 3 ==> Parameters(t.buffer))
    ensures var r := Fed(t, b);
      && r.state <= 3
      && (r.state == 1 <==> b == ESC)
      && (r.state == 2 <==> b == BRACKET && t.state == 1)
      && (r.state == 3 && r.buffer == p <==>
          if p == [] then b == QUESTION && t.state == 2
          else b == p[|p| - 1] && IsParameter(b) && |p| <= MAX_PARAMETERS && t.state == 3 && t.buffer == p[..|p| - 1])
      && (r.state == 3 ==> Parameters(r.buffer))
  {
    hide Updated;
    if p != [] {
      assert p == p[..|p| - 1] + [p[|p| - 1]];
    }
  }

  lemma FedModes(t: Tracker, b: byte)
    requires t.state <= 3
    ensures Fed(t, b).modes == if t.state == 3 && IsFinal(b) then Updated(t.modes, t.buffer, b == SET) else t.modes
  {
    hide Updated;
  }

  /** Modes are updated by the last byte of the stream exactly when the stream then ends in a setting
      with at most 64 parameter bytes, and with exactly those parameters. */
  lemma FiresExactlyAtSettings(t: Tracker, g: seq<byte>, b: byte, p: seq<byte>)
    requires t.state == 0
    ensures var r := Scanned(t, g);
      && (Finishes(g + [b], p, b == SET) <==> r.state == 3 && IsFinal(b) && r.buffer == p)
      && (Finishes(g + [b], p, b == SET) ==> Scanned(t, g + [b]).modes == Updated(r.modes, p, b == SET))
      && (!SettingEnds(g + [b], b == SET) ==> Scanned(t, g + [b]).modes == r.modes)
  {
    var r, enabled := Scanned(t, g), b == SET;
    assert (g + [b])[..|g + [b]| - 1] == g;
    assert Scanned(t, g + [b]) == Fed(r, b);
    hide Scanned, EndsWith, Parameters;
    assert Finishes(g + [b], r.buffer, enabled) ==> SettingEnds(g + [b], enabled);
    hide Unfinished, Finishes, SettingEnds;
    FinishesStep(g, b, p);
    StateMeaning(t, g, p);
    FinishesStep(g, b, r.buffer);
    StateMeaning(t, g, r.buffer);
    FedModes(r, b);
    hide Fed, Updated, IsFinal;
  }

  lemma FinishesStep(g: seq<byte>, b: byte, p: seq<byte>)
    ensures Finishes(g + [b], p, b == SET) <==> IsFinal(b) && Unfinished(g, p)
  {
    EndsWithMore(g, INTRODUCER + p, b, if b == SET then SET else UNSET);
    hide EndsWith;
  }

  // ---- The modes are the last assignments ----

  datatype Assignment = Assignment(mode: nat, enabled: bool)

  function Listed(parts: seq<seq<byte>>, enabled: bool): seq<Assignment> {
    if parts == [] then [] else
      var before := Listed(parts[..|parts| - 1], enabled);
      match Number(parts[|parts| - 1])
      case None => before
      case Some(mode) => before + [Assignment(mode, enabled)]
  }

  /** Every assignment the stream makes, read off the settings in it. */
  ghost function Assignments(h: seq<byte>): seq<Assignment> {
    if h == [] then [] else
      var before, enabled := Assignments(h[..|h| - 1]), h[|h| - 1] == SET;
      if SettingEnds(h, enabled) then before + Listed(Split(SettingAt(h, enabled)), enabled) else before
  }

  /** What the last assignment to a mode says; modes start disabled. */
  function Last(list: seq<Assignment>, mode: nat): bool {
    if list == [] then false
    else if list[|list| - 1].mode == mode then list[|list| - 1].enabled
    else Last(list[..|list| - 1], mode)
  }

  ghost predicate Agree(m: Modes, list: seq<Assignment>) {
    && m.cursorKeys == Last(list, 1)
    && m.bracketedPaste == Last(list, 2004)
    && m.sgrMouse == Last(list, 1006)
    && m.mouse1000 == Last(list, 1000)
    && m.mouse1002 == Last(list, 1002)
    && m.mouse1003 == Last(list, 1003)
  }

  lemma AssignAgrees(m: Modes, list: seq<Assignment>, mode: nat, enabled: bool)
    requires Agree(m, list)
    ensures Agree(Assign(m, mode, enabled), list + [Assignment(mode, enabled)])
  {
    hide Last;
    var a := Assignment(mode, enabled);
    LastNext(list, a, 1);
    LastNext(list, a, 1000);
    LastNext(list, a, 1002);
    LastNext(list, a, 1003);
    LastNext(list, a, 1006);
    LastNext(list, a, 2004);
  }

  lemma LastNext(list: seq<Assignment>, a: Assignment, mode: nat)
    ensures Last(list + [a], mode) == if a.mode == mode then a.enabled else Last(list, mode)
  {
    assert (list + [a])[..|list|] == list;
  }

  lemma {:induction false} PartsAgree(m: Modes, list: seq<Assignment>, parts: seq<seq<byte>>, enabled: bool)
    requires Agree(m, list)
    ensures Agree(AssignParts(m, parts, enabled), list + Listed(parts, enabled))
    decreases |parts|
  {
    hide Agree, Assign, Number;
    if parts == [] {
      assert list + [] == list;
    } else {
      var front := parts[..|parts| - 1];
      PartsAgree(m, list, front, enabled);
      var number := Number(parts[|parts| - 1]);
      if number.Some? {
        AssignAgrees(AssignParts(m, front, enabled), list + Listed(front, enabled), number.value, enabled);
        assert list + Listed(parts, enabled) == list + Listed(front, enabled) + [Assignment(number.value, enabled)];
      }
    }
  }

  lemma UpdatedAgrees(m: Modes, list: seq<Assignment>, p: seq<byte>, enabled: bool)
    requires Agree(m, list)
    ensures Agree(Updated(m, p, enabled), list + Listed(Split(p), enabled))
  {
    PartsAgree(m, list, Split(p), enabled);
    hide AssignParts, Listed, Last;
  }

  /** After any stream since a reset, however it was cut, each mode is what the last setting in the
      stream made it, and the mouse is active exactly when one of its three modes is. */
  lemma {:induction false} ModesAreLastAssignments(h: seq<byte>)
    ensures var m := Scanned(START, h).modes;
      && Agree(m, Assignments(h))
      && (m.mouseActive <==> m.mouse1000 || m.mouse1002 || m.mouse1003)
    decreases |h|
  {
    if h != [] {
      var g, b := h[..|h| - 1], h[|h| - 1];
      assert h == g + [b];
      ModesAreLastAssignments(g);
      NextByteAgrees(g, b);
      MouseAgrees(Scanned(START, g), b);
    }
    hide Fed, Finishes;
  }

  lemma NextByteAgrees(g: seq<byte>, b: byte)
    requires Agree(Scanned(START, g).modes, Assignments(g))
    ensures Agree(Scanned(START, g + [b]).modes, Assignments(g + [b]))
  {
    hide Agree, Finishes, Fed, Updated, Listed, Scanned, SettingEnds, SettingAt;
    var h := g + [b];
    assert h[..|h| - 1] == g;
    FiresExactlyAtSettings(START, g, b, []);
    if SettingEnds(h, b == SET) {
      var p := SettingAt(h, b == SET);
      FiresExactlyAtSettings(START, g, b, p);
      UpdatedAgrees(Scanned(START, g).modes, Assignments(g), p, b == SET);
    }
  }

  lemma MouseAgrees(t: Tracker, b: byte)
    requires t.modes.mouseActive <==> t.modes.mouse1000 || t.modes.mouse1002 || t.modes.mouse1003
    ensures var m := Fed(t, b).modes; m.mouseActive <==> m.mouse1000 || m.mouse1002 || m.mouse1003
  {
    hide AssignParts;
  }
}
