/** The bridge's wire codec: values are written to a cursor and read back from one, byte order being
    that of the machine. */
module SseCodec {
  import opened Basics
  import Utf8

  type i32 = n: int | -0x8000_0000 <= n < 0x8000_0000
  type i64 = n: int | -0x8000_0000_0000_0000 <= n < 0x8000_0000_0000_0000

  datatype Order = Little | Big

  /** A value and the bytes after it; a decoder that cannot continue panics. */
  datatype Parsed<T> = Done(value: T, rest: seq<byte>) | Panic

  // ---- Integers ----

  function Pow256(n: nat): nat {
    if n == 0 then 1 else 256 * Pow256(n - 1)
  }

  /** The `n` lowest base-256 digits, lowest first. */
  function Digits(v: nat, n: nat): (d: seq<byte>)
    ensures |d| == n
  {
    if n == 0 then [] else [v % 256] + Digits(v / 256, n - 1)
  }

  function Value(d: seq<byte>): nat {
    if d == [] then 0 else d[0] as int + 256 * Value(d[1..])
  }

  lemma {:induction false} DigitsRoundTrip(v: nat, n: nat)
    requires v < Pow256(n)
    ensures Value(Digits(v, n)) == v
  {
    if n > 0 {
      DigitsRoundTrip(v / 256, n - 1);
      assert Digits(v, n)[1..] == Digits(v / 256, n - 1);
    }
  }

  function Ordered(o: Order, d: seq<byte>): (r: seq<byte>)
    ensures |r| == |d|
  {
    if o.Little? then d else seq(|d|, i requires 0 <= i < |d| => d[|d| - 1 - i])
  }

  lemma OrderedTwice(o: Order, d: seq<byte>)
    ensures Ordered(o, Ordered(o, d)) == d
  {
  }

  function EncodeUnsigned(v: nat, n: nat, o: Order): (b: seq<byte>)
    ensures |b| == n
  {
    Ordered(o, Digits(v, n))
  }

  function DecodeUnsigned(b: seq<byte>, n: nat, o: Order): Parsed<nat> {
    if |b| < n then Panic else Done(Value(Ordered(o, b[..n])), b[n..])
  }

  lemma UnsignedRoundTrip(v: nat, n: nat, o: Order, rest: seq<byte>)
    requires v < Pow256(n)
    ensures DecodeUnsigned(EncodeUnsigned(v, n, o) + rest, n, o) == Done(v, rest)
  {
    var b := EncodeUnsigned(v, n, o);
    assert (b + rest)[..n] == b && (b + rest)[n..] == rest;
    OrderedTwice(o, Digits(v, n));
    DigitsRoundTrip(v, n);
    hide Ordered, Digits, Value;
  }

  lemma Powers()
    ensures Pow256(1) == 0x100 && Pow256(2) == 0x1_0000 && Pow256(4) == 0x1_0000_0000
    ensures Pow256(8) == 0x1_0000_0000_0000_0000
  {
    assert Pow256(2) == 256 * Pow256(1);
    assert Pow256(3) == 256 * Pow256(2);
    assert Pow256(5) == 256 * Pow256(4);
    assert Pow256(7) == 256 * 256 * Pow256(5);
  }

  /** Two's complement. */
  function Unsigned(v: int, modulus: nat): nat
    requires 0 <= v + modulus && v < modulus
  {
    if v < 0 then v + modulus else v
  }

  function Signed(v: nat, modulus: nat): int {
    if v * 2 < modulus then v else v as int - modulus as int
  }

  function EncodeI32(v: i32, o: Order): seq<byte> {
    EncodeUnsigned(Unsigned(v, 0x1_0000_0000), 4, o)
  }

  function EncodeI64(v: i64, o: Order): seq<byte> {
    EncodeUnsigned(Unsigned(v, 0x1_0000_0000_0000_0000), 8, o)
  }

  function DecodeI32(b: seq<byte>, o: Order): Parsed<int> {
    match DecodeUnsigned(b, 4, o)
    case Done(v, rest) => Done(Signed(v, 0x1_0000_0000), rest)
    case Panic => Panic
  }

  function DecodeI64(b: seq<byte>, o: Order): Parsed<int> {
    match DecodeUnsigned(b, 8, o)
    case Done(v, rest) => Done(Signed(v, 0x1_0000_0000_0000_0000), rest)
    case Panic => Panic
  }

  /** The four bytes of a 32-bit integer, lowest first on a little-endian machine and highest first on a big-endian
      one, are its value modulo 2^32. */
  lemma I32Layout(v: i32)
    ensures var b, m := EncodeI32(v, Little), v as int % 0x1_0000_0000;
      && |b| == 4 && b[0] as int + 0x100 * b[1] as int + 0x1_0000 * b[2] as int + 0x100_0000 * b[3] as int == m
      && EncodeI32(v, Big) == [b[3], b[2], b[1], b[0]]
  {
    var u := Unsigned(v, 0x1_0000_0000);
    assert Digits(u, 4) == [u % 256, u / 256 % 256, u / 256 / 256 % 256, u / 256 / 256 / 256 % 256] by {
      FourDigits(u);
    }
    hide Digits;
  }

  lemma FourDigits(u: nat)
    ensures Digits(u, 4) == [u % 256] + ([u / 256 % 256] + ([u / 256 / 256 % 256] + ([u / 256 / 256 / 256 % 256] + [])))
  {
    assert Digits(u / 256 / 256 / 256, 1) == [u / 256 / 256 / 256 % 256] + Digits(u / 256 / 256 / 256 / 256, 0);
    assert Digits(u / 256 / 256, 2) == [u / 256 / 256 % 256] + Digits(u / 256 / 256 / 256, 1);
  }

  lemma I32RoundTrip(v: i32, o: Order, rest: seq<byte>)
    ensures DecodeI32(EncodeI32(v, o) + rest, o) == Done(v, rest)
  {
    Powers();
    UnsignedRoundTrip(Unsigned(v, 0x1_0000_0000), 4, o, rest);
    hide DecodeUnsigned, EncodeUnsigned, Pow256;
  }

  lemma I64RoundTrip(v: i64, o: Order, rest: seq<byte>)
    ensures DecodeI64(EncodeI64(v, o) + rest, o) == Done(v, rest)
  {
    Powers();
    UnsignedRoundTrip(Unsigned(v, 0x1_0000_0000_0000_0000), 8, o, rest);
    hide DecodeUnsigned, EncodeUnsigned, Pow256;
  }

  lemma {:induction false} ValueFits(d: seq<byte>)
    ensures Value(d) < Pow256(|d|)
  {
    if d != [] {
      ValueFits(d[1..]);
    }
  }

  function DecodeU16(b: seq<byte>, o: Order): Parsed<u16> {
    if |b| < 2 then Panic else
      ValueFits(Ordered(o, b[..2]));
      Powers();
      Done(Value(Ordered(o, b[..2])), b[2..])
  }

  function DecodeU32(b: seq<byte>, o: Order): Parsed<u32> {
    if |b| < 4 then Panic else
      ValueFits(Ordered(o, b[..4]));
      Powers();
      Done(Value(Ordered(o, b[..4])), b[4..])
  }

  lemma U16RoundTrip(v: u16, o: Order, rest: seq<byte>)
    ensures DecodeU16(EncodeUnsigned(v, 2, o) + rest, o) == Done(v, rest)
  {
    Powers();
    UnsignedRoundTrip(v, 2, o, rest);
    hide EncodeUnsigned, Pow256, Value, Ordered;
  }

  lemma U32RoundTrip(v: u32, o: Order, rest: seq<byte>)
    ensures DecodeU32(EncodeUnsigned(v, 4, o) + rest, o) == Done(v, rest)
  {
    Powers();
    UnsignedRoundTrip(v, 4, o, rest);
    hide EncodeUnsigned, Pow256, Value, Ordered;
  }

  // ---- Byte vectors, strings and optional strings ----

  /** A length is cut to 32 bits. */
  function AsI32(n: nat): i32 {
    Signed(n % 0x1_0000_0000, 0x1_0000_0000)
  }

  lemma LengthKept(n: nat)
    ensures AsI32(n) == n <==> n < 0x8000_0000
  {
  }

  function EncodeBytes(v: seq<byte>, o: Order): seq<byte> {
    EncodeI32(AsI32(|v|), o) + v
  }

  function DecodeBytes(b: seq<byte>, o: Order): Parsed<seq<byte>> {
    match DecodeI32(b, o)
    case Done(n, rest) => if n < 0 || |rest| < n then Panic else Done(rest[..n], rest[n..])
    case Panic => Panic
  }

  /** Byte vectors survive exactly when their length fits 31 bits. */
  lemma BytesRoundTripIff(v: seq<byte>, o: Order, rest: seq<byte>)
    ensures DecodeBytes(EncodeBytes(v, o) + rest, o) == Done(v, rest) <==> |v| < 0x8000_0000
  {
    var n := AsI32(|v|);
    Reassociate(EncodeI32(n, o), v, rest);
    I32RoundTrip(n, o, v + rest);
    LengthKept(|v|);
    assert (v + rest)[..|v|] == v && (v + rest)[|v|..] == rest;
    hide EncodeI32, DecodeI32, AsI32;
  }

  lemma Reassociate(a: seq<byte>, b: seq<byte>, c: seq<byte>)
    ensures a + b + c == a + (b + c)
  {
  }

  function EncodeString(s: string, o: Order): seq<byte> {
    EncodeBytes(Utf8.Encode(s), o)
  }

  function DecodeString(b: seq<byte>, o: Order): Parsed<string> {
    match DecodeBytes(b, o)
    case Done(bytes, rest) =>
      (match Utf8.Decode(bytes)
       case Some(s) => Done(s, rest)
       case None => Panic)
    case Panic => Panic
  }

  ghost predicate ShortText(s: string) {
    |Utf8.Encode(s)| < 0x8000_0000
  }

  lemma StringRoundTrip(s: string, o: Order, rest: seq<byte>)
    requires ShortText(s)
    ensures DecodeString(EncodeString(s, o) + rest, o) == Done(s, rest)
  {
    BytesRoundTripIff(Utf8.Encode(s), o, rest);
    Utf8.DecodeEncode(s);
    hide EncodeBytes, DecodeBytes, Utf8.Encode, Utf8.Decode;
  }

  function EncodeOption(s: Option<string>, o: Order): seq<byte> {
    match s
    case None => [0]
    case Some(text) => [1] + EncodeString(text, o)
  }

  function DecodeOption(b: seq<byte>, o: Order): Parsed<Option<string>> {
    if b == [] then Panic
    else if b[0] == 0 then Done(None, b[1..])
    else
      match DecodeString(b[1..], o)
      case Done(s, rest) => Done(Some(s), rest)
      case Panic => Panic
  }

  lemma OptionRoundTrip(s: Option<string>, o: Order, rest: seq<byte>)
    requires s.Some? ==> ShortText(s.value)
    ensures DecodeOption(EncodeOption(s, o) + rest, o) == Done(s, rest)
  {
    hide ShortText, EncodeString, DecodeString;
    match s {
      case None => assert ([0] + rest)[1..] == rest;
      case Some(text) =>
        StringRoundTrip(text, o, rest);
        Reassociate([1], EncodeString(text, o), rest);
        assert ([1] + (EncodeString(text, o) + rest))[1..] == EncodeString(text, o) + rest;
    }
  }

  // ---- Vectors of strings ----

  function StringItems(v: seq<string>, o: Order): seq<byte> {
    if v == [] then [] else EncodeString(v[0], o) + StringItems(v[1..], o)
  }

  function EncodeStrings(v: seq<string>, o: Order): seq<byte> {
    EncodeI32(AsI32(|v|), o) + StringItems(v, o)
  }

  function DecodeStringItems(b: seq<byte>, n: nat, o: Order): Parsed<seq<string>>
    decreases n
  {
    if n == 0 then Done([], b) else
      match DecodeString(b, o)
      case Done(s, rest) => Prepended([s], DecodeStringItems(rest, n - 1, o))
      case Panic => Panic
  }

  function Prepended<T>(front: seq<T>, p: Parsed<seq<T>>): Parsed<seq<T>> {
    match p
    case Done(v, rest) => Done(front + v, rest)
    case Panic => Panic
  }

  function DecodeStrings(b: seq<byte>, o: Order): Parsed<seq<string>> {
    match DecodeI32(b, o)
    case Done(n, rest) => if n < 0 then Panic else DecodeStringItems(rest, n, o)
    case Panic => Panic
  }

  ghost predicate ShortTexts(v: seq<string>) {
    forall i :: 0 <= i < |v| ==> ShortText(v[i])
  }

  lemma {:induction false} StringItemsRoundTrip(v: seq<string>, o: Order, rest: seq<byte>)
    requires ShortTexts(v)
    ensures DecodeStringItems(StringItems(v, o) + rest, |v|, o) == Done(v, rest)
  {
    hide EncodeString, DecodeString, ShortText;
    if v == [] {
      assert [] + rest == rest;
    } else {
      StringItemsRoundTrip(v[1..], o, rest);
      Reassociate(EncodeString(v[0], o), StringItems(v[1..], o), rest);
      StringRoundTrip(v[0], o, StringItems(v[1..], o) + rest);
      assert v == [v[0]] + v[1..];
    }
  }

  lemma {:induction false} StringItemsCount(b: seq<byte>, n: nat, o: Order)
    ensures DecodeStringItems(b, n, o).Done? ==> |DecodeStringItems(b, n, o).value| == n
    decreases n
  {
    hide DecodeString;
    if n > 0 && DecodeString(b, o).Done? {
      StringItemsCount(DecodeString(b, o).rest, n - 1, o);
    }
  }

  /** Vectors of strings survive exactly when their length fits 31 bits. */
  lemma StringsRoundTripIff(v: seq<string>, o: Order, rest: seq<byte>)
    requires ShortTexts(v)
    ensures DecodeStrings(EncodeStrings(v, o) + rest, o) == Done(v, rest) <==> |v| < 0x8000_0000
  {
    var n := AsI32(|v|);
    var items := StringItems(v, o);
    Reassociate(EncodeI32(n, o), items, rest);
    I32RoundTrip(n, o, items + rest);
    LengthKept(|v|);
    hide EncodeI32, DecodeI32, AsI32, StringItems, DecodeStringItems, ShortTexts;
    if n >= 0 {
      StringItemsCount(items + rest, n, o);
    }
    StringItemsRoundTrip(v, o, rest);
  }

  // ---- Records ----

  datatype JumpHost = JumpHost(host: string, port: u16, username: string, authKind: string, password: string,
    privateKeyPem: string, passphrase: Option<string>, trustedHostKeys: seq<string>)

  datatype ConnectRequest = ConnectRequest(host: string, port: u16, username: string, authKind: string, password: string,
    privateKeyPem: string, passphrase: Option<string>, trustedHostKeys: seq<string>,
    terminalWidth: u32, terminalHeight: u32, jumpHosts: seq<JumpHost>)

  /** A jump host in front of the bytes that follow it. */
  function JumpOnto(j: JumpHost, o: Order, tail: seq<byte>): seq<byte> {
    EncodeString(j.host, o) + (EncodeUnsigned(j.port, 2, o) + (EncodeString(j.username, o) + (EncodeString(j.authKind, o) +
    (EncodeString(j.password, o) + (EncodeString(j.privateKeyPem, o) + (EncodeOption(j.passphrase, o) +
    (EncodeStrings(j.trustedHostKeys, o) + tail)))))))
  }

  /** A jump host behind the bytes that precede it. */
  function JumpAfter(head: seq<byte>, j: JumpHost, o: Order): seq<byte> {
    head + EncodeString(j.host, o) + EncodeUnsigned(j.port, 2, o) + EncodeString(j.username, o) + EncodeString(j.authKind, o) +
    EncodeString(j.password, o) + EncodeString(j.privateKeyPem, o) + EncodeOption(j.passphrase, o) +
    EncodeStrings(j.trustedHostKeys, o)
  }

  lemma JumpRegroups(head: seq<byte>, j: JumpHost, o: Order, tail: seq<byte>)
    ensures JumpAfter(head, j, o) + tail == head + JumpOnto(j, o, tail)
  {
    var a, b := EncodeString(j.host, o), EncodeUnsigned(j.port, 2, o);
    var c, d := EncodeString(j.username, o), EncodeString(j.authKind, o);
    var e, f := EncodeString(j.password, o), EncodeString(j.privateKeyPem, o);
    var g, h := EncodeOption(j.passphrase, o), EncodeStrings(j.trustedHostKeys, o);
    hide EncodeString, EncodeUnsigned, EncodeOption, EncodeStrings;
    assert JumpAfter(head, j, o) == head + a + b + c + d + e + f + g + h;
    assert JumpOnto(j, o, tail) == a + (b + (c + (d + (e + (f + (g + (h + tail)))))));
    Regroup4(head + a + b + c + d, e, f, g, h, tail);
    Regroup4(head, a, b, c, d, e + (f + (g + (h + tail))));
  }

  lemma Regroup4(head: seq<byte>, a: seq<byte>, b: seq<byte>, c: seq<byte>, d: seq<byte>, tail: seq<byte>)
    ensures head + a + b + c + d + tail == head + (a + (b + (c + (d + tail))))
  {
    Reassociate(head + a + b + c, d, tail);
    Reassociate(head + a + b, c, d + tail);
    Reassociate(head + a, b, c + (d + tail));
    Reassociate(head, a, b + (c + (d + tail)));
  }

  function EncodeJump(j: JumpHost, o: Order): seq<byte> {
    JumpOnto(j, o, [])
  }

  lemma JumpThen(j: JumpHost, o: Order, tail: seq<byte>)
    ensures EncodeJump(j, o) + tail == JumpOnto(j, o, tail)
    ensures forall head :: head + EncodeJump(j, o) == JumpAfter(head, j, o)
  {
    hide JumpOnto, JumpAfter;
    forall head ensures head + EncodeJump(j, o) == JumpAfter(head, j, o) {
      JumpRegroups(head, j, o, []);
      assert JumpAfter(head, j, o) + [] == JumpAfter(head, j, o);
    }
    JumpRegroups([], j, o, tail);
    assert [] + EncodeJump(j, o) == EncodeJump(j, o) && [] + JumpOnto(j, o, tail) == JumpOnto(j, o, tail);
  }

  function DecodeJump(b: seq<byte>, o: Order): Parsed<JumpHost> {
    match DecodeString(b, o) case Panic => Panic case Done(host, b1) =>
    match DecodeU16(b1, o) case Panic => Panic case Done(port, b2) =>
    match DecodeString(b2, o) case Panic => Panic case Done(username, b3) =>
    match DecodeString(b3, o) case Panic => Panic case Done(authKind, b4) =>
    match DecodeString(b4, o) case Panic => Panic case Done(password, b5) =>
    match DecodeString(b5, o) case Panic => Panic case Done(privateKeyPem, b6) =>
    match DecodeOption(b6, o) case Panic => Panic case Done(passphrase, b7) =>
    match DecodeStrings(b7, o) case Panic => Panic case Done(trusted, b8) =>
    Done(JumpHost(host, port, username, authKind, password, privateKeyPem, passphrase, trusted), b8)
  }

  ghost predicate ShortJump(j: JumpHost) {
    && ShortText(j.host) && ShortText(j.username) && ShortText(j.authKind) && ShortText(j.password)
    && ShortText(j.privateKeyPem) && (j.passphrase.Some? ==> ShortText(j.passphrase.value))
    && |j.trustedHostKeys| < 0x8000_0000 && ShortTexts(j.trustedHostKeys)
  }

  lemma JumpRoundTrip(j: JumpHost, o: Order, tail: seq<byte>)
    requires ShortJump(j)
    ensures DecodeJump(JumpOnto(j, o, tail), o) == Done(j, tail)
  {
    hide EncodeString, EncodeUnsigned, EncodeOption, EncodeStrings, DecodeString, DecodeU16, DecodeOption, DecodeStrings,
         ShortText, ShortTexts;
    var t7 := EncodeStrings(j.trustedHostKeys, o) + tail;
    var t6 := EncodeOption(j.passphrase, o) + t7;
    var t5 := EncodeString(j.privateKeyPem, o) + t6;
    var t4 := EncodeString(j.password, o) + t5;
    var t3 := EncodeString(j.authKind, o) + t4;
    var t2 := EncodeString(j.username, o) + t3;
    var t1 := EncodeUnsigned(j.port, 2, o) + t2;
    StringRoundTrip(j.host, o, t1);
    U16RoundTrip(j.port, o, t2);
    StringRoundTrip(j.username, o, t3);
    StringRoundTrip(j.authKind, o, t4);
    StringRoundTrip(j.password, o, t5);
    StringRoundTrip(j.privateKeyPem, o, t6);
    OptionRoundTrip(j.passphrase, o, t7);
    StringsRoundTripIff(j.trustedHostKeys, o, tail);
  }

  function JumpItems(v: seq<JumpHost>, o: Order): seq<byte> {
    if v == [] then [] else EncodeJump(v[0], o) + JumpItems(v[1..], o)
  }

  function EncodeJumps(v: seq<JumpHost>, o: Order): seq<byte> {
    EncodeI32(AsI32(|v|), o) + JumpItems(v, o)
  }

  function DecodeJumpItems(b: seq<byte>, n: nat, o: Order): Parsed<seq<JumpHost>>
    decreases n
  {
    if n == 0 then Done([], b) else
      match DecodeJump(b, o)
      case Done(j, rest) => Prepended([j], DecodeJumpItems(rest, n - 1, o))
      case Panic => Panic
  }

  function DecodeJumps(b: seq<byte>, o: Order): Parsed<seq<JumpHost>> {
    match DecodeI32(b, o)
    case Done(n, rest) => if n < 0 then Panic else DecodeJumpItems(rest, n, o)
    case Panic => Panic
  }

  ghost predicate ShortJumps(v: seq<JumpHost>) {
    |v| < 0x8000_0000 && forall i :: 0 <= i < |v| ==> ShortJump(v[i])
  }

  lemma {:induction false} JumpItemsRoundTrip(v: seq<JumpHost>, o: Order, rest: seq<byte>)
    requires ShortJumps(v)
    ensures DecodeJumpItems(JumpItems(v, o) + rest, |v|, o) == Done(v, rest)
  {
    hide EncodeJump, DecodeJump, JumpOnto, ShortJump;
    if v == [] {
      assert [] + rest == rest;
    } else {
      var tail := JumpItems(v[1..], o) + rest;
      JumpItemsRoundTrip(v[1..], o, rest);
      Reassociate(EncodeJump(v[0], o), JumpItems(v[1..], o), rest);
      JumpThen(v[0], o, tail);
      JumpRoundTrip(v[0], o, tail);
      assert v == [v[0]] + v[1..];
    }
  }

  lemma JumpsRoundTrip(v: seq<JumpHost>, o: Order, rest: seq<byte>)
    requires ShortJumps(v)
    ensures DecodeJumps(EncodeJumps(v, o) + rest, o) == Done(v, rest)
  {
    Reassociate(EncodeI32(AsI32(|v|), o), JumpItems(v, o), rest);
    I32RoundTrip(AsI32(|v|), o, JumpItems(v, o) + rest);
    LengthKept(|v|);
    JumpItemsRoundTrip(v, o, rest);
    hide EncodeI32, DecodeI32, AsI32, JumpItems, DecodeJumpItems, ShortJump;
  }

  /** A request starts with the same eight fields as a jump host. */
  function Login(r: ConnectRequest): JumpHost {
    JumpHost(r.host, r.port, r.username, r.authKind, r.password, r.privateKeyPem, r.passphrase, r.trustedHostKeys)
  }

  function EncodeRequest(r: ConnectRequest, o: Order): seq<byte> {
    EncodeJump(Login(r), o) + EncodeUnsigned(r.terminalWidth, 4, o) + EncodeUnsigned(r.terminalHeight, 4, o)
      + EncodeJumps(r.jumpHosts, o)
  }

  function DecodeRequest(b: seq<byte>, o: Order): Parsed<ConnectRequest> {
    match DecodeJump(b, o) case Panic => Panic case Done(j, b1) =>
    match DecodeU32(b1, o) case Panic => Panic case Done(width, b2) =>
    match DecodeU32(b2, o) case Panic => Panic case Done(height, b3) =>
    match DecodeJumps(b3, o) case Panic => Panic case Done(jumps, b4) =>
    Done(ConnectRequest(j.host, j.port, j.username, j.authKind, j.password, j.privateKeyPem, j.passphrase, j.trustedHostKeys,
                        width, height, jumps), b4)
  }

  ghost predicate ShortRequest(r: ConnectRequest) {
    ShortJump(Login(r)) && ShortJumps(r.jumpHosts)
  }

  /** What follows the login in a request. */
  function RequestTail(r: ConnectRequest, o: Order, rest: seq<byte>): seq<byte> {
    EncodeUnsigned(r.terminalWidth, 4, o) + (EncodeUnsigned(r.terminalHeight, 4, o) + (EncodeJumps(r.jumpHosts, o) + rest))
  }

  lemma RequestRegroups(r: ConnectRequest, o: Order, rest: seq<byte>)
    ensures EncodeRequest(r, o) + rest == JumpOnto(Login(r), o, RequestTail(r, o, rest))
  {
    hide JumpOnto, EncodeJump, EncodeUnsigned, EncodeJumps, Login;
    var a, b, c, d := EncodeJump(Login(r), o), EncodeUnsigned(r.terminalWidth, 4, o), EncodeUnsigned(r.terminalHeight, 4, o),
                      EncodeJumps(r.jumpHosts, o);
    JumpThen(Login(r), o, RequestTail(r, o, rest));
    Reassociate(a + b + c, d, rest);
    Reassociate(a + b, c, d + rest);
    Reassociate(a, b, c + (d + rest));
  }

  /** A connection request, nested jump hosts included, is recovered from its encoding followed by any
      bytes, and exactly those bytes are left. */
  lemma RequestRoundTrip(r: ConnectRequest, o: Order, rest: seq<byte>)
    requires ShortRequest(r)
    ensures DecodeRequest(EncodeRequest(r, o) + rest, o) == Done(r, rest)
  {
    hide JumpOnto, DecodeJump, EncodeUnsigned, DecodeU32, EncodeRequest, EncodeJumps, DecodeJumps, ShortJump, ShortJumps;
    RequestRegroups(r, o, rest);
    JumpRoundTrip(Login(r), o, RequestTail(r, o, rest));
    var t3 := EncodeJumps(r.jumpHosts, o) + rest;
    var t2 := EncodeUnsigned(r.terminalHeight, 4, o) + t3;
    U32RoundTrip(r.terminalWidth, o, t2);
    U32RoundTrip(r.terminalHeight, o, t3);
    JumpsRoundTrip(r.jumpHosts, o, rest);
  }
}
