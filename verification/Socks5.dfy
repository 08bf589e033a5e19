/** The SOCKS5 side of a dynamic tunnel: reading a greeting and a CONNECT request (sections 3 and 4 of
    RFC 1928) off a stream. */
module Socks5 {
  import opened Basics
  import opened Utf8

  /** Addresses keep their bytes; a domain is text. */
  datatype Host = V4(address: seq<byte>) | Domain(name: string) | V6(address: seq<byte>)

  datatype Request = Request(host: Host, port: u16)

  datatype Error = EndOfStream | MethodUnsupported | CommandUnsupported | AddressUnsupported | NotText

  datatype Result<T> = Ok(value: T) | Err(error: Error)

  const VERSION: byte := 5
  const CONNECT: byte := 1

  // ---- What a client sends ----

  function Greeting(methods: seq<byte>): seq<byte>
    requires |methods| < 256
  {
    [VERSION, |methods| as byte] + methods
  }

  predicate Sendable(h: Host) {
    match h
    case V4(a) => |a| == 4
    case Domain(name) => |Encode(name)| < 256
    case V6(a) => |a| == 16
  }

  function EncodeHost(h: Host): seq<byte>
    requires Sendable(h)
  {
    match h
    case V4(a) => [1] + a
    case Domain(name) => [3, |Encode(name)|] + Encode(name)
    case V6(a) => [4] + a
  }

  function EncodePort(port: u16): seq<byte> {
    [port / 256, port % 256]
  }

  function EncodeRequest(r: Request, reserved: byte): seq<byte>
    requires Sendable(r.host)
  {
    [VERSION, CONNECT, reserved] + (EncodeHost(r.host) + EncodePort(r.port))
  }

  // ---- The reader, as a function of the bytes that are left ----

  /** A step's result and how many bytes it consumed; after an error the count no longer matters. */
  datatype Parsed<T> = Parsed(result: Result<T>, used: nat)

  predicate GreetingComplete(b: seq<byte>) {
    |b| >= 2 && |b| >= 2 + b[1] as int
  }

  predicate GreetingFine(b: seq<byte>)
    requires GreetingComplete(b)
  {
    b[0] == VERSION && 0 in b[2..2 + b[1] as int]
  }

  function ParseHost(b: seq<byte>): (p: Parsed<Host>)
    ensures p.result.Ok? ==> p.used <= |b|
  {
    if b == [] then Parsed(Err(EndOfStream), 0)
    else if b[0] == 1 then
      if |b| < 5 then Parsed(Err(EndOfStream), 0) else Parsed(Ok(V4(b[1..5])), 5)
    else if b[0] == 3 then
      if |b| < 2 || |b| < 2 + b[1] as int then Parsed(Err(EndOfStream), 0) else
        var text := Decode(b[2..2 + b[1] as int]);
        if text.None? then Parsed(Err(NotText), 0) else Parsed(Ok(Domain(text.value)), 2 + b[1] as int)
    else if b[0] == 4 then
      if |b| < 17 then Parsed(Err(EndOfStream), 0) else Parsed(Ok(V6(b[1..17])), 17)
    else Parsed(Err(AddressUnsupported), 0)
  }

  function ParseRequest(b: seq<byte>): (p: Parsed<Request>)
    ensures p.result.Ok? ==> p.used <= |b|
  {
    if b == [] then Parsed(Err(EndOfStream), 0)
    else if b[0] != VERSION then Parsed(Err(CommandUnsupported), 0)
    else if |b| < 2 then Parsed(Err(EndOfStream), 0)
    else if b[1] != CONNECT then Parsed(Err(CommandUnsupported), 0)
    else if |b| < 3 then Parsed(Err(EndOfStream), 0)
    else
      var host := ParseHost(b[3..]);
      if host.result.Err? then Parsed(Err(host.result.error), 0) else
        var at := 3 + host.used;
        if |b| < at + 2 then Parsed(Err(EndOfStream), 0)
        else Parsed(Ok(Request(host.result.value, b[at] as int * 256 + b[at + 1] as int)), at + 2)
  }

  function ParseAll(b: seq<byte>): (p: Parsed<Request>)
    ensures p.result.Ok? ==> p.used <= |b|
  {
    if !GreetingComplete(b) then Parsed(Err(EndOfStream), 0)
    else if !GreetingFine(b) then Parsed(Err(MethodUnsupported), 0)
    else
      var request := ParseRequest(b[2 + b[1] as int..]);
      Parsed(request.result, 2 + b[1] as int + request.used)
  }

  /** What is written back before a channel is opened. */
  function Answered(b: seq<byte>): seq<byte> {
    if !GreetingComplete(b) then [] else if GreetingFine(b) then [VERSION, 0] else [VERSION, 0xFF]
  }

  // ---- The socket, read in place ----

  class Socket {
    const input: seq<byte>
    var position: nat
    var written: seq<byte>

    ghost predicate Valid()
      reads this
    {
      position <= |input|
    }

    function Rest(): seq<byte>
      requires Valid()
      reads this
    {
      input[position..]
    }

    constructor (input: seq<byte>)
      ensures Valid() && Rest() == input && written == []
    {
      this.input, position, written := input, 0, [];
    }

    method ReadExact(n: nat) returns (bytes: Result<seq<byte>>)
      requires Valid()
      modifies this`position
      ensures Valid() && bytes.Ok? == (n <= |old(Rest())|)
      ensures bytes.Ok? ==> bytes.value == old(Rest())[..n] && Rest() == old(Rest())[n..] && position == old(position) + n
      ensures bytes.Err? ==> bytes.error == EndOfStream
    {
      if n > |input| - position {
        position := |input|;
        return Err(EndOfStream);
      }
      bytes := Ok(input[position..position + n]);
      position := position + n;
    }

    /** The length byte and the name after a domain's type byte. */
    method ReadDomain(ghost b: seq<byte>) returns (host: Result<Host>)
      requires Valid() && |b| >= 1 && b[0] == 3 && Rest() == b[1..]
      modifies this`position
      ensures Valid() && host == ParseHost(b).result
      ensures host.Ok? ==> Rest() == b[ParseHost(b).used..] && position == old(position) + ParseHost(b).used - 1
    {
      hide Decode;
      var length := ReadExact(1);
      if length.Err? {
        return Err(EndOfStream);
      }
      var bytes := ReadExact(length.value[0]);
      if bytes.Err? {
        return Err(EndOfStream);
      }
      assert bytes.value == b[2..2 + b[1] as int];
      var text := Decode(bytes.value);
      if text.None? {
        return Err(NotText);
      }
      host := Ok(Domain(text.value));
    }

    method ReadHost() returns (host: Result<Host>)
      requires Valid()
      modifies this`position
      ensures Valid() && host == ParseHost(old(Rest())).result
      ensures host.Ok? ==> Rest() == old(Rest())[ParseHost(old(Rest())).used..]
      ensures host.Ok? ==> position == old(position) + ParseHost(old(Rest())).used
    {
      hide Decode;
      ghost var b := Rest();
      var kind := ReadExact(1);
      if kind.Err? {
        return Err(EndOfStream);
      }
      match kind.value[0] {
        case 1 =>
          var bytes := ReadExact(4);
          if bytes.Err? {
            return Err(EndOfStream);
          }
          assert bytes.value == b[1..5];
          host := Ok(V4(bytes.value));
        case 3 => host := ReadDomain(b);
        case 4 =>
          var bytes := ReadExact(16);
          if bytes.Err? {
            return Err(EndOfStream);
          }
          assert bytes.value == b[1..17];
          host := Ok(V6(bytes.value));
        case _ => return Err(AddressUnsupported);
      }
    }

    method ReadRequest() returns (request: Result<Request>)
      requires Valid()
      modifies this`position
      ensures Valid() && request == ParseRequest(old(Rest())).result
      ensures request.Ok? ==> position == old(position) + ParseRequest(old(Rest())).used
    {
      hide ParseHost;
      ghost var b := Rest();
      var version := ReadExact(1);
      if version.Err? {
        return Err(EndOfStream);
      }
      if version.value[0] != VERSION {
        return Err(CommandUnsupported);
      }
      var command := ReadExact(1);
      if command.Err? {
        return Err(EndOfStream);
      }
      if command.value[0] != CONNECT {
        return Err(CommandUnsupported);
      }
      var reserved := ReadExact(1);
      if reserved.Err? {
        return Err(EndOfStream);
      }
      assert Rest() == b[3..];
      var host := ReadHost();
      if host.Err? {
        return Err(host.error);
      }
      var port := ReadExact(2);
      if port.Err? {
        return Err(EndOfStream);
      }
      request := Ok(Request(host.value, port.value[0] as int * 256 + port.value[1] as int));
    }

    /** The greeting, and whether it is acceptable. */
    method ReadGreeting() returns (fine: Result<bool>)
      requires Valid()
      modifies this`position
      ensures Valid() && fine.Ok? == GreetingComplete(old(Rest()))
      ensures fine.Ok? ==> fine.value == GreetingFine(old(Rest()))
      ensures fine.Ok? ==> Rest() == old(Rest())[2 + old(Rest())[1] as int..]
      ensures fine.Ok? ==> position == old(position) + 2 + old(Rest())[1] as int
      ensures fine.Err? ==> fine.error == EndOfStream
    {
      ghost var b := Rest();
      var version := ReadExact(1);
      if version.Err? {
        return Err(EndOfStream);
      }
      var count := ReadExact(1);
      if count.Err? {
        return Err(EndOfStream);
      }
      var methods := ReadExact(count.value[0]);
      if methods.Err? {
        return Err(EndOfStream);
      }
      assert methods.value == b[2..2 + b[1] as int];
      fine := Ok(version.value[0] == VERSION && 0 in methods.value);
    }

    /** The whole exchange up to the point where a channel is opened. */
    method Negotiate() returns (request: Result<Request>)
      requires Valid()
      modifies this
      ensures Valid() && request == ParseAll(old(Rest())).result
      ensures request.Ok? ==> position == old(position) + ParseAll(old(Rest())).used
      ensures written == old(written) + Answered(old(Rest()))
    {
      hide ParseRequest, GreetingFine;
      var fine := ReadGreeting();
      if fine.Err? {
        return Err(EndOfStream);
      }
      if !fine.value {
        written := written + [VERSION, 0xFF];
        return Err(MethodUnsupported);
      }
      written := written + [VERSION, 0];
      request := ReadRequest();
    }
  }

  // ---- Reader and client agree ----

  lemma HostRoundTrip(h: Host, rest: seq<byte>)
    requires Sendable(h)
    ensures ParseHost(EncodeHost(h) + rest) == Parsed(Ok(h), |EncodeHost(h)|)
  {
    var b := EncodeHost(h) + rest;
    match h {
      case V4(a) => assert b[1..5] == a;
      case Domain(name) =>
        DecodeEncode(name);
        hide Encode, Decode;
        assert b[2..2 + b[1] as int] == Encode(name);
      case V6(a) => assert b[1..17] == a;
    }
  }

  lemma RequestRoundTrip(r: Request, reserved: byte, rest: seq<byte>)
    requires Sendable(r.host)
    ensures ParseRequest(EncodeRequest(r, reserved) + rest) == Parsed(Ok(r), |EncodeRequest(r, reserved)|)
  {
    hide Sendable, EncodeHost, ParseHost;
    var b, host := EncodeRequest(r, reserved) + rest, EncodeHost(r.host);
    HostRoundTrip(r.host, EncodePort(r.port) + rest);
    assert b[3..] == host + (EncodePort(r.port) + rest);
    assert b[3 + |host|] == r.port / 256 && b[3 + |host| + 1] == r.port % 256;
  }

  lemma GreetingFirst(methods: seq<byte>, rest: seq<byte>)
    requires |methods| < 256
    ensures var b := Greeting(methods) + rest;
      && GreetingComplete(b) && b[0] == VERSION && b[1] as int == |methods|
      && b[2..2 + b[1] as int] == methods && b[2 + b[1] as int..] == rest
  {
    var b := Greeting(methods) + rest;
    assert b[0] == VERSION && b[1] as int == |methods|;
  }

  lemma DropFront(a: seq<byte>, b: seq<byte>, c: seq<byte>)
    ensures a + b + c == a + (b + c) && (a + b + c)[|a| + |b|..] == c
  {
  }

  /** Whatever methods and payload surround it, a request is recovered, and exactly its bytes and the
      greeting's are consumed. */
  lemma ClientIsUnderstood(methods: seq<byte>, r: Request, reserved: byte, payload: seq<byte>)
    requires |methods| < 256 && 0 in methods && Sendable(r.host)
    ensures var b := Greeting(methods) + EncodeRequest(r, reserved) + payload;
      && ParseAll(b) == Parsed(Ok(r), |Greeting(methods)| + |EncodeRequest(r, reserved)|)
      && b[ParseAll(b).used..] == payload
      && Answered(b) == [VERSION, 0]
  {
    var b := Greeting(methods) + EncodeRequest(r, reserved) + payload;
    var request := EncodeRequest(r, reserved);
    RequestRoundTrip(r, reserved, payload);
    hide EncodeRequest, ParseRequest;
    GreetingFirst(methods, request + payload);
    DropFront(Greeting(methods), request, payload);
    assert |Greeting(methods)| == 2 + |methods|;
    hide Greeting;
  }

  lemma HostParsed(b: seq<byte>)
    requires ParseHost(b).result.Ok?
    ensures var p := ParseHost(b); Sendable(p.result.value) && EncodeHost(p.result.value) == b[..p.used]
  {
    if b[0] == 3 {
      EncodeDecode(b[2..2 + b[1] as int]);
      hide Encode, Decode;
      assert b[..2 + b[1] as int] == [b[0], b[1]] + b[2..2 + b[1] as int];
    } else if b[0] == 1 {
      assert b[..5] == [b[0]] + b[1..5];
    } else {
      assert b[..17] == [b[0]] + b[1..17];
    }
  }

  lemma RequestParsed(b: seq<byte>)
    requires ParseRequest(b).result.Ok?
    ensures var p := ParseRequest(b);
      Sendable(p.result.value.host) && |b| >= 3 && EncodeRequest(p.result.value, b[2]) == b[..p.used]
  {
    hide Sendable, EncodeHost, ParseHost;
    HostParsed(b[3..]);
    var p := ParseRequest(b);
    var n := ParseHost(b[3..]).used;
    assert b[..p.used] == [b[0], b[1], b[2]] + (b[3..][..n] + [b[3 + n], b[3 + n + 1]]);
  }

  /** Every stream that is accepted begins with a greeting offering method 0 and the encoding of the
      request that is reported, up to the ignored reserved byte. */
  lemma OnlyRequestsAreAccepted(b: seq<byte>)
    requires ParseAll(b).result.Ok?
    ensures var r := ParseAll(b).result.value; var n := 2 + b[1] as int; var methods := b[2..n];
      && |methods| < 256 && 0 in methods && Sendable(r.host) && |b| >= n + 3
      && b[..ParseAll(b).used] == Greeting(methods) + EncodeRequest(r, b[n + 2])
  {
    hide ParseRequest, EncodeRequest;
    var n := 2 + b[1] as int;
    RequestParsed(b[n..]);
    var used := ParseRequest(b[n..]).used;
    assert b[..n + used] == b[..n] + b[n..][..used];
    assert b[..n] == Greeting(b[2..n]);
  }

  // ---- When a stream is refused ----

  /** More bytes change nothing once the outcome is settled. */
  lemma HostSettled(b: seq<byte>, more: seq<byte>)
    requires ParseHost(b).result != Err(EndOfStream)
    ensures ParseHost(b + more) == ParseHost(b)
  {
    var c := b + more;
    assert c[0] == b[0];
    if b[0] == 3 {
      assert c[2..2 + b[1] as int] == b[2..2 + b[1] as int];
    } else if b[0] == 1 {
      assert c[1..5] == b[1..5];
    } else if b[0] == 4 {
      assert c[1..17] == b[1..17];
    }
    hide Decode;
  }

  lemma RequestSettled(b: seq<byte>, more: seq<byte>)
    requires ParseRequest(b).result != Err(EndOfStream)
    ensures ParseRequest(b + more) == ParseRequest(b)
  {
    hide ParseHost;
    var c := b + more;
    assert forall i :: 0 <= i < |b| ==> c[i] == b[i];
    if |b| >= 3 {
      assert c[3..] == b[3..] + more;
      if ParseHost(b[3..]).result != Err(EndOfStream) {
        HostSettled(b[3..], more);
      }
    }
  }

  /** A stream of 519 bytes is long enough for any greeting and any request. */
  lemma LongEnough(b: seq<byte>)
    requires |b| >= 519
    ensures ParseAll(b).result != Err(EndOfStream)
  {
    var n := 2 + b[1] as int;
    HostLongEnough(b[n..][3..]);
    hide ParseHost;
  }

  lemma HostLongEnough(b: seq<byte>)
    requires |b| >= 259
    ensures ParseHost(b).result != Err(EndOfStream) && (ParseHost(b).result.Ok? ==> ParseHost(b).used <= 257)
  {
    hide Decode;
  }

  /** A stream is found too short exactly when bytes are missing: whatever follows a settled outcome leaves it as
      it is, and a stream that ends early has a continuation that is settled. */
  lemma TooShortIff(b: seq<byte>)
    ensures ParseAll(b).result != Err(EndOfStream) <==>
      forall more :: ParseAll(b + more).result == ParseAll(b).result && Answered(b + more) == Answered(b)
  {
    if ParseAll(b).result != Err(EndOfStream) {
      forall more ensures ParseAll(b + more).result == ParseAll(b).result && Answered(b + more) == Answered(b) {
        Settled(b, more);
      }
    } else {
      var more := seq(519, i => 0);
      LongEnough(b + more);
      assert ParseAll(b + more).result != ParseAll(b).result;
    }
    hide ParseAll;
  }

  lemma Settled(b: seq<byte>, more: seq<byte>)
    requires ParseAll(b).result != Err(EndOfStream)
    ensures ParseAll(b + more) == ParseAll(b) && Answered(b + more) == Answered(b)
  {
    hide ParseRequest;
    var c, n := b + more, 2 + b[1] as int;
    assert c[1] == b[1] && c[0] == b[0] && c[2..n] == b[2..n] && c[n..] == b[n..] + more;
    if GreetingFine(b) {
      RequestSettled(b[n..], more);
    }
  }

  /** Which complaint a stream of sufficient length meets first. */
  lemma Refusals(b: seq<byte>)
    requires |b| >= 519
    ensures Answered(b) == if b[0] != 5 || 0 !in b[2..2 + b[1] as int] then [5, 0xFF] else [5, 0]
    ensures var n := 2 + b[1] as int; var host := b[n + 3]; var e := ParseAll(b).result;
      if b[0] != 5 || 0 !in b[2..n] then e == Err(MethodUnsupported)
      else if b[n] != 5 || b[n + 1] != 1 then e == Err(CommandUnsupported)
      else if host == 3 && Decode(b[n + 5..n + 5 + b[n + 4] as int]).None? then e == Err(NotText)
      else if host != 1 && host != 3 && host != 4 then e == Err(AddressUnsupported)
      else e.Ok?
  {
    var n := 2 + b[1] as int;
    var r := b[n..];
    HostLongEnough(r[3..]);
    HostOutcome(r[3..]);
    assert r[3..][2..2 + r[3..][1] as int] == b[n + 5..n + 5 + b[n + 4] as int];
    hide ParseHost, Decode;
  }

  lemma HostOutcome(b: seq<byte>)
    requires |b| >= 259
    ensures var e := ParseHost(b).result;
      if b[0] == 3 && Decode(b[2..2 + b[1] as int]).None? then e == Err(NotText)
      else if b[0] != 1 && b[0] != 3 && b[0] != 4 then e == Err(AddressUnsupported)
      else e.Ok?
  {
    hide Decode;
  }

  /** A wrong version or command is refused as soon as its byte is there. */
  lemma CommandIsEnough(b: seq<byte>)
    requires |b| >= 1 && (b[0] != 5 || (|b| >= 2 && b[1] != 1))
    ensures ParseRequest(b).result == Err(CommandUnsupported)
  {
    hide ParseHost;
  }
}
