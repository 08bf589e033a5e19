/** The codec as it runs: encoders push bytes onto a serializer's cursor, decoders advance one. */
module SseCursor {
  import opened Basics
  import Utf8
  import opened SseCodec

  class Serializer {
    const order: Order
    var cursor: seq<byte>

    constructor (order: Order)
      ensures cursor == [] && this.order == order
    {
      this.order, cursor := order, [];
    }

    method WriteU8(v: byte)
      modifies this`cursor
      ensures cursor == old(cursor) + [v]
    {
      cursor := cursor + [v];
    }

    /** Writes an integer of `n` bytes. */
    method WriteUnsigned(v: nat, n: nat)
      modifies this`cursor
      ensures cursor == old(cursor) + EncodeUnsigned(v, n, order)
    {
      cursor := cursor + EncodeUnsigned(v, n, order);
    }

    method EncodeI32Value(v: i32)
      modifies this`cursor
      ensures cursor == old(cursor) + EncodeI32(v, order)
    {
      WriteUnsigned(Unsigned(v, 0x1_0000_0000), 4);
    }

    method EncodeVecU8(v: seq<byte>)
      modifies this`cursor
      ensures cursor == old(cursor) + EncodeBytes(v, order)
    {
      EncodeI32Value(AsI32(|v|));
      ghost var before := cursor;
      hide EncodeI32, AsI32;
      for i := 0 to |v|
        invariant cursor == before + v[..i]
      {
        WriteU8(v[i]);
        assert v[..i + 1] == v[..i] + [v[i]];
        Reassociate(before, v[..i], [v[i]]);
      }
      assert v[..|v|] == v;
      Reassociate(old(cursor), EncodeI32(AsI32(|v|), order), v);
    }

    method EncodeText(s: string)
      modifies this`cursor
      ensures cursor == old(cursor) + EncodeString(s, order)
    {
      EncodeVecU8(Utf8.Encode(s));
    }

    method EncodeOptionText(s: Option<string>)
      modifies this`cursor
      ensures cursor == old(cursor) + EncodeOption(s, order)
    {
      WriteU8(if s.Some? then 1 else 0);
      if s.Some? {
        EncodeText(s.value);
        Reassociate(old(cursor), [1], EncodeString(s.value, order));
      }
      hide EncodeString;
    }

    method EncodeVecString(v: seq<string>)
      modifies this`cursor
      ensures cursor == old(cursor) + EncodeStrings(v, order)
    {
      hide EncodeI32, AsI32, StringItems, EncodeString;
      EncodeI32Value(AsI32(|v|));
      ghost var before := cursor;
      StringItemsNone(v, order);
      for i := 0 to |v|
        invariant cursor == before + StringItems(v[..i], order)
      {
        EncodeText(v[i]);
        StringItemsNext(v, i, order);
        Reassociate(before, StringItems(v[..i], order), EncodeString(v[i], order));
      }
      assert v[..|v|] == v;
      Reassociate(old(cursor), EncodeI32(AsI32(|v|), order), StringItems(v, order));
    }

    method EncodeJumpHost(j: JumpHost)
      modifies this`cursor
      ensures cursor == old(cursor) + EncodeJump(j, order)
    {
      hide EncodeString, EncodeUnsigned, EncodeOption, EncodeStrings, EncodeJump;
      EncodeText(j.host);
      WriteUnsigned(j.port, 2);
      EncodeText(j.username);
      EncodeText(j.authKind);
      EncodeText(j.password);
      EncodeText(j.privateKeyPem);
      EncodeOptionText(j.passphrase);
      EncodeVecString(j.trustedHostKeys);
      assert cursor == JumpAfter(old(cursor), j, order);
      JumpThen(j, order, []);
    }

    method EncodeVecJumpHost(v: seq<JumpHost>)
      modifies this`cursor
      ensures cursor == old(cursor) + EncodeJumps(v, order)
    {
      hide EncodeI32, AsI32, JumpItems, EncodeJump;
      EncodeI32Value(AsI32(|v|));
      ghost var before := cursor;
      JumpItemsNone(v, order);
      for i := 0 to |v|
        invariant cursor == before + JumpItems(v[..i], order)
      {
        EncodeJumpHost(v[i]);
        JumpItemsNext(v, i, order);
        Reassociate(before, JumpItems(v[..i], order), EncodeJump(v[i], order));
      }
      assert v[..|v|] == v;
      Reassociate(old(cursor), EncodeI32(AsI32(|v|), order), JumpItems(v, order));
    }

    method EncodeConnectRequest(r: ConnectRequest)
      modifies this`cursor
      ensures cursor == old(cursor) + EncodeRequest(r, order)
    {
      hide EncodeString, EncodeUnsigned, EncodeOption, EncodeStrings, EncodeJump, EncodeJumps;
      EncodeText(r.host);
      WriteUnsigned(r.port, 2);
      EncodeText(r.username);
      EncodeText(r.authKind);
      EncodeText(r.password);
      EncodeText(r.privateKeyPem);
      EncodeOptionText(r.passphrase);
      EncodeVecString(r.trustedHostKeys);
      assert cursor == JumpAfter(old(cursor), Login(r), order);
      JumpThen(Login(r), order, []);
      hide JumpAfter, Login;
      WriteUnsigned(r.terminalWidth, 4);
      WriteUnsigned(r.terminalHeight, 4);
      EncodeVecJumpHost(r.jumpHosts);
      Append4(old(cursor), EncodeJump(Login(r), order), EncodeUnsigned(r.terminalWidth, 4, order),
              EncodeUnsigned(r.terminalHeight, 4, order), EncodeJumps(r.jumpHosts, order));
    }
  }

  lemma Append4(head: seq<byte>, a: seq<byte>, b: seq<byte>, c: seq<byte>, d: seq<byte>)
    ensures head + a + b + c + d == head + (a + b + c + d)
  {
    Reassociate(head, a, b);
    Reassociate(head, a + b, c);
    Reassociate(head, a + b + c, d);
  }

  lemma StringItemsNone(v: seq<string>, o: Order)
    ensures StringItems(v[..0], o) == []
  {
  }

  lemma {:induction false} StringItemsNext(v: seq<string>, i: nat, o: Order)
    requires i < |v|
    ensures StringItems(v[..i + 1], o) == StringItems(v[..i], o) + EncodeString(v[i], o)
  {
    hide EncodeString;
    if i == 0 {
      assert v[..1] == [v[0]] && [v[0]][1..] == [];
      assert EncodeString(v[0], o) + [] == [] + EncodeString(v[0], o);
    } else {
      StringItemsNext(v[1..], i - 1, o);
      assert v[..i + 1][1..] == v[1..][..i] && v[..i][1..] == v[1..][..i - 1];
      Reassociate(EncodeString(v[0], o), StringItems(v[1..][..i - 1], o), EncodeString(v[i], o));
    }
  }

  lemma JumpItemsNone(v: seq<JumpHost>, o: Order)
    ensures JumpItems(v[..0], o) == []
  {
  }

  lemma {:induction false} JumpItemsNext(v: seq<JumpHost>, i: nat, o: Order)
    requires i < |v|
    ensures JumpItems(v[..i + 1], o) == JumpItems(v[..i], o) + EncodeJump(v[i], o)
  {
    hide EncodeJump;
    if i == 0 {
      assert v[..1] == [v[0]] && [v[0]][1..] == [];
      assert EncodeJump(v[0], o) + [] == [] + EncodeJump(v[0], o);
    } else {
      JumpItemsNext(v[1..], i - 1, o);
      assert v[..i + 1][1..] == v[1..][..i] && v[..i][1..] == v[1..][..i - 1];
      Reassociate(EncodeJump(v[0], o), JumpItems(v[1..][..i - 1], o), EncodeJump(v[i], o));
    }
  }

  /** A read has the outcome a decoding of the unread bytes has, and leaves what that leaves. */
  ghost predicate Reads<T>(decoded: Parsed<T>, result: Option<T>, rest: seq<byte>) {
    match decoded
    case Done(v, left) => result == Some(v) && rest == left
    case Panic => result == None
  }

  class Deserializer {
    const order: Order
    const data: seq<byte>
    var position: nat

    ghost predicate Valid()
      reads this
    {
      position <= |data|
    }

    function Rest(): seq<byte>
      requires Valid()
      reads this
    {
      data[position..]
    }

    constructor (data: seq<byte>, order: Order)
      ensures Valid() && Rest() == data && this.order == order
    {
      this.order, this.data, position := order, data, 0;
    }

    method ReadExact(n: nat) returns (bytes: Option<seq<byte>>)
      requires Valid()
      modifies this`position
      ensures Valid() && bytes.Some? == (n <= |old(Rest())|)
      ensures bytes.Some? ==> bytes.value == old(Rest())[..n] && Rest() == old(Rest())[n..]
    {
      if n > |data| - position {
        return None;
      }
      bytes := Some(data[position..position + n]);
      position := position + n;
    }

    method DecodeU16Value() returns (v: Option<u16>)
      requires Valid()
      modifies this`position
      ensures Valid() && Reads(DecodeU16(old(Rest()), order), v, Rest())
    {
      hide Value, Ordered;
      var bytes := ReadExact(2);
      if bytes.None? {
        return None;
      }
      ValueFits(Ordered(order, bytes.value));
      Powers();
      v := Some(Value(Ordered(order, bytes.value)));
    }

    method DecodeU32Value() returns (v: Option<u32>)
      requires Valid()
      modifies this`position
      ensures Valid() && Reads(DecodeU32(old(Rest()), order), v, Rest())
    {
      hide Value, Ordered;
      var bytes := ReadExact(4);
      if bytes.None? {
        return None;
      }
      ValueFits(Ordered(order, bytes.value));
      Powers();
      v := Some(Value(Ordered(order, bytes.value)));
    }

    method DecodeI32Value() returns (v: Option<int>)
      requires Valid()
      modifies this`position
      ensures Valid() && Reads(DecodeI32(old(Rest()), order), v, Rest())
    {
      hide Value, Ordered, Signed;
      var bytes := ReadExact(4);
      if bytes.None? {
        return None;
      }
      v := Some(Signed(Value(Ordered(order, bytes.value)), 0x1_0000_0000));
    }

    /** A negative length cannot be allocated. */
    method DecodeVecU8() returns (v: Option<seq<byte>>)
      requires Valid()
      modifies this`position
      ensures Valid() && Reads(DecodeBytes(old(Rest()), order), v, Rest())
    {
      hide DecodeI32;
      var length := DecodeI32Value();
      if length.None? || length.value < 0 {
        return None;
      }
      var items: seq<byte> := [];
      ghost var start := Rest();
      for i := 0 to length.value
        invariant Valid() && i <= |start| && items == start[..i] && Rest() == start[i..]
      {
        var item := ReadExact(1);
        if item.None? {
          return None;
        }
        items := items + item.value;
      }
      v := Some(items);
    }

    method DecodeText() returns (s: Option<string>)
      requires Valid()
      modifies this`position
      ensures Valid() && Reads(DecodeString(old(Rest()), order), s, Rest())
    {
      hide DecodeBytes, Utf8.Decode;
      var bytes := DecodeVecU8();
      if bytes.None? {
        return None;
      }
      match Utf8.Decode(bytes.value) {
        case None => s := None;
        case Some(text) => s := Some(text);
      }
    }

    method DecodeOptionText() returns (s: Option<Option<string>>)
      requires Valid()
      modifies this`position
      ensures Valid() && Reads(DecodeOption(old(Rest()), order), s, Rest())
    {
      hide DecodeString;
      var present := ReadExact(1);
      if present.None? {
        return None;
      }
      if present.value[0] == 0 {
        return Some(None);
      }
      var text := DecodeText();
      s := if text.None? then None else Some(text);
    }

    method DecodeVecString() returns (v: Option<seq<string>>)
      requires Valid()
      modifies this`position
      ensures Valid() && Reads(DecodeStrings(old(Rest()), order), v, Rest())
    {
      hide DecodeI32, DecodeString;
      var length := DecodeI32Value();
      if length.None? || length.value < 0 {
        return None;
      }
      ghost var goal := DecodeStringItems(Rest(), length.value, order);
      var items: seq<string> := [];
      PrependNone(goal);
      for i := 0 to length.value
        invariant Valid() && Prepended(items, DecodeStringItems(Rest(), length.value - i, order)) == goal
      {
        ghost var before := Rest();
        var item := DecodeText();
        if item.None? {
          return None;
        }
        PrependTwice(items, [item.value], DecodeStringItems(Rest(), length.value - i - 1, order));
        items := items + [item.value];
      }
      assert items + [] == items;
      v := Some(items);
    }

    method DecodeJumpHost() returns (j: Option<JumpHost>)
      requires Valid()
      modifies this`position
      ensures Valid() && Reads(DecodeJump(old(Rest()), order), j, Rest())
    {
      hide DecodeString, DecodeU16, DecodeOption, DecodeStrings;
      var host := DecodeText();
      if host.None? { return None; }
      var port := DecodeU16Value();
      if port.None? { return None; }
      var username := DecodeText();
      if username.None? { return None; }
      var authKind := DecodeText();
      if authKind.None? { return None; }
      var password := DecodeText();
      if password.None? { return None; }
      var privateKeyPem := DecodeText();
      if privateKeyPem.None? { return None; }
      var passphrase := DecodeOptionText();
      if passphrase.None? { return None; }
      var trusted := DecodeVecString();
      if trusted.None? { return None; }
      j := Some(JumpHost(host.value, port.value, username.value, authKind.value, password.value, privateKeyPem.value,
                         passphrase.value, trusted.value));
    }

    method DecodeVecJumpHost() returns (v: Option<seq<JumpHost>>)
      requires Valid()
      modifies this`position
      ensures Valid() && Reads(DecodeJumps(old(Rest()), order), v, Rest())
    {
      hide DecodeI32, DecodeJump;
      var length := DecodeI32Value();
      if length.None? || length.value < 0 {
        return None;
      }
      ghost var goal := DecodeJumpItems(Rest(), length.value, order);
      var items: seq<JumpHost> := [];
      PrependNone(goal);
      for i := 0 to length.value
        invariant Valid() && Prepended(items, DecodeJumpItems(Rest(), length.value - i, order)) == goal
      {
        var item := DecodeJumpHost();
        if item.None? {
          return None;
        }
        PrependTwice(items, [item.value], DecodeJumpItems(Rest(), length.value - i - 1, order));
        items := items + [item.value];
      }
      assert items + [] == items;
      v := Some(items);
    }

    method DecodeConnectRequest() returns (r: Option<ConnectRequest>)
      requires Valid()
      modifies this`position
      ensures Valid() && Reads(DecodeRequest(old(Rest()), order), r, Rest())
    {
      hide DecodeJump, DecodeU32, DecodeJumps;
      var login := DecodeJumpHost();
      if login.None? { return None; }
      var width := DecodeU32Value();
      if width.None? { return None; }
      var height := DecodeU32Value();
      if height.None? { return None; }
      var jumps := DecodeVecJumpHost();
      if jumps.None? { return None; }
      var j := login.value;
      r := Some(ConnectRequest(j.host, j.port, j.username, j.authKind, j.password, j.privateKeyPem, j.passphrase,
                               j.trustedHostKeys, width.value, height.value, jumps.value));
    }

  }

  lemma PrependNone<T>(p: Parsed<seq<T>>)
    ensures Prepended([], p) == p
  {
    if p.Done? {
      assert [] + p.value == p.value;
    }
  }

  lemma PrependTwice<T>(a: seq<T>, b: seq<T>, p: Parsed<seq<T>>)
    ensures Prepended(a, Prepended(b, p)) == Prepended(a + b, p)
  {
    if p.Done? {
      assert a + (b + p.value) == a + b + p.value;
    }
  }

  /** A request written by one end of the bridge is what the other end reads, whatever follows it. */
  method SendAndReceive(r: ConnectRequest, order: Order, more: seq<byte>)
    returns (received: Option<ConnectRequest>, rest: seq<byte>)
    requires ShortRequest(r)
    ensures received == Some(r) && rest == more
  {
    var serializer := new Serializer(order);
    serializer.EncodeConnectRequest(r);
    assert [] + EncodeRequest(r, order) == EncodeRequest(r, order);
    var deserializer := new Deserializer(serializer.cursor + more, order);
    RequestRoundTrip(r, order, more);
    hide EncodeRequest, DecodeRequest;
    received := deserializer.DecodeConnectRequest();
    rest := deserializer.Rest();
  }
}
