/** UTF-8 as text is stored and checked: only shortest forms of scalar values are accepted. */
module Utf8 {
  import opened Basics

  /** A continuation byte and the six bits it carries. */
  predicate Follows(b: byte) {
    0x80 <= b < 0xC0
  }

  function Six(b: byte): int {
    b as int - 0x80
  }

  function Tail(v: nat): (b: byte)
    ensures Follows(b) && Six(b) == v % 0x40
  {
    0x80 + v % 0x40
  }

  function EncodeChar(c: char): (bytes: seq<byte>)
    ensures 1 <= |bytes| <= 4
  {
    var v := c as int;
    if v < 0x80 then [v]
    else if v < 0x800 then [0xC0 + v / 0x40, Tail(v)]
    else if v < 0x1_0000 then [0xE0 + v / 0x40 / 0x40, Tail(v / 0x40), Tail(v)]
    else [0xF0 + v / 0x40 / 0x40 / 0x40, Tail(v / 0x40 / 0x40), Tail(v / 0x40), Tail(v)]
  }

  function Encode(s: string): seq<byte> {
    if s == [] then [] else EncodeChar(s[0]) + Encode(s[1..])
  }

  // The rows of the table of well-formed byte sequences, by length, with the value each carries.

  predicate Form2(b0: byte, b1: byte) {
    0xC2 <= b0 <= 0xDF && Follows(b1)
  }

  function Value2(b0: byte, b1: byte): int {
    (b0 as int - 0xC0) * 0x40 + Six(b1)
  }

  predicate Form3(b0: byte, b1: byte, b2: byte) {
    0xE0 <= b0 <= 0xEF && Follows(b1) && Follows(b2) && (b0 == 0xE0 ==> b1 >= 0xA0) && (b0 == 0xED ==> b1 < 0xA0)
  }

  function Value3(b0: byte, b1: byte, b2: byte): int {
    ((b0 as int - 0xE0) * 0x40 + Six(b1)) * 0x40 + Six(b2)
  }

  predicate Form4(b0: byte, b1: byte, b2: byte, b3: byte) {
    0xF0 <= b0 <= 0xF4 && Follows(b1) && Follows(b2) && Follows(b3) && (b0 == 0xF0 ==> b1 >= 0x90) && (b0 == 0xF4 ==> b1 < 0x90)
  }

  function Value4(b0: byte, b1: byte, b2: byte, b3: byte): int {
    (((b0 as int - 0xF0) * 0x40 + Six(b1)) * 0x40 + Six(b2)) * 0x40 + Six(b3)
  }

  /** The first character and its length. */
  function DecodeChar(b: seq<byte>): (r: Option<(char, nat)>)
    ensures r.Some? ==> 1 <= r.value.1 <= |b|
  {
    if b == [] then None
    else if b[0] < 0x80 then Some((b[0] as int as char, 1))
    else if |b| >= 2 && Form2(b[0], b[1]) then Some((Value2(b[0], b[1]) as char, 2))
    else if |b| >= 3 && Form3(b[0], b[1], b[2]) then Some((Value3(b[0], b[1], b[2]) as char, 3))
    else if |b| >= 4 && Form4(b[0], b[1], b[2], b[3]) then Some((Value4(b[0], b[1], b[2], b[3]) as char, 4))
    else None
  }

  function Decode(b: seq<byte>): Option<string> {
    if b == [] then Some([]) else
      var first := DecodeChar(b);
      if first.None? then None else
        var rest := Decode(b[first.value.1..]);
        if rest.None? then None else Some([first.value.0] + rest.value)
  }

  lemma Take6(v: nat)
    ensures v / 0x40 * 0x40 + v % 0x40 == v
  {
  }

  lemma Put6(high: nat, low: nat)
    requires low < 0x40
    ensures (high * 0x40 + low) / 0x40 == high && (high * 0x40 + low) % 0x40 == low
  {
  }

  lemma CharRoundTrip(c: char, rest: seq<byte>)
    ensures DecodeChar(EncodeChar(c) + rest) == Some((c, |EncodeChar(c)|))
  {
    var v := c as int;
    var b, e := EncodeChar(c) + rest, EncodeChar(c);
    Take6(v);
    Take6(v / 0x40);
    Take6(v / 0x40 / 0x40);
    assert forall i :: 0 <= i < |e| ==> b[i] == e[i];
    hide Tail;
    if v < 0x80 {
    } else if v < 0x800 {
      assert Value2(b[0], b[1]) == v;
    } else if v < 0x1_0000 {
      assert Value3(b[0], b[1], b[2]) == v;
    } else {
      assert Value4(b[0], b[1], b[2], b[3]) == v;
    }
  }

  lemma TailIs(b: byte, v: nat)
    requires Follows(b) && v % 0x40 == Six(b)
    ensures Tail(v) == b
  {
  }

  lemma OnlyShortestForms(b: seq<byte>)
    requires DecodeChar(b).Some?
    ensures var (c, n) := DecodeChar(b).value; b[..n] == EncodeChar(c)
  {
    if b[0] < 0x80 {
    } else if Form2(b[0], b[1]) {
      Shortest2(b[0], b[1]);
    } else if Form3(b[0], b[1], b[2]) {
      Shortest3(b[0], b[1], b[2]);
    } else {
      Shortest4(b[0], b[1], b[2], b[3]);
    }
    hide EncodeChar, Value2, Value3, Value4, Six;
  }

  lemma Shortest2(b0: byte, b1: byte)
    requires Form2(b0, b1)
    ensures EncodeChar(Value2(b0, b1) as char) == [b0, b1]
  {
    Put6(b0 as int - 0xC0, Six(b1));
    TailIs(b1, Value2(b0, b1));
    hide Tail;
  }

  lemma Shortest3(b0: byte, b1: byte, b2: byte)
    requires Form3(b0, b1, b2)
    ensures EncodeChar(Value3(b0, b1, b2) as char) == [b0, b1, b2]
  {
    var high := (b0 as int - 0xE0) * 0x40 + Six(b1);
    Put6(high, Six(b2));
    Put6(b0 as int - 0xE0, Six(b1));
    TailIs(b2, Value3(b0, b1, b2));
    TailIs(b1, high);
    hide Tail;
  }

  lemma Shortest4(b0: byte, b1: byte, b2: byte, b3: byte)
    requires Form4(b0, b1, b2, b3)
    ensures EncodeChar(Value4(b0, b1, b2, b3) as char) == [b0, b1, b2, b3]
  {
    var higher := (b0 as int - 0xF0) * 0x40 + Six(b1);
    var high := higher * 0x40 + Six(b2);
    Put6(high, Six(b3));
    Put6(higher, Six(b2));
    Put6(b0 as int - 0xF0, Six(b1));
    TailIs(b3, Value4(b0, b1, b2, b3));
    TailIs(b2, high);
    TailIs(b1, higher);
    hide Tail;
  }

  lemma {:induction false} DecodeEncode(s: string)
    ensures Decode(Encode(s)) == Some(s)
  {
    if s != [] {
      hide DecodeChar, EncodeChar;
      CharRoundTrip(s[0], Encode(s[1..]));
      DecodeEncode(s[1..]);
      assert Encode(s)[|EncodeChar(s[0])|..] == Encode(s[1..]);
      assert s == [s[0]] + s[1..];
    }
  }

  lemma EncodeCons(c: char, s: string)
    ensures Encode([c] + s) == EncodeChar(c) + Encode(s)
  {
    hide EncodeChar;
    assert ([c] + s)[1..] == s;
  }

  lemma DecodeCons(b: seq<byte>)
    requires b != [] && Decode(b).Some?
    ensures DecodeChar(b).Some? && Decode(b[DecodeChar(b).value.1..]).Some?
    ensures Decode(b).value == [DecodeChar(b).value.0] + Decode(b[DecodeChar(b).value.1..]).value
  {
    hide DecodeChar;
  }

  lemma {:induction false} EncodeDecode(b: seq<byte>)
    requires Decode(b).Some?
    ensures Encode(Decode(b).value) == b
    decreases |b|
  {
    if b != [] {
      DecodeCons(b);
      OnlyShortestForms(b);
      hide DecodeChar, EncodeChar, Encode, Decode;
      var (c, n) := DecodeChar(b).value;
      EncodeDecode(b[n..]);
      EncodeCons(c, Decode(b[n..]).value);
      assert b == b[..n] + b[n..];
    }
  }
}
