/**
  The handshake: the server's list of protocols reaches the client name by name and version by
  version, also where a name contains an '@'.
 */
module Handshake {
  import opened Bytes
  import opened VarInt
  import opened Spec
  import opened Messages
  import opened ServerModel
  import opened ClientModel
  import opened Stream

  predicate AllDigits(s: seq<byte>) { forall b :: b in s ==> IsDigit(b) }

  lemma {:induction false} DecimalIsDigits(n: nat)
    ensures AllDigits(Decimal(n)) && Decimal(n) != []
    decreases n
  {
    if n >= 10 { DecimalIsDigits(n / 10); }
  }

  lemma {:induction false} DecimalValue(n: nat)
    ensures DigitsValue(Decimal(n)) == n
    decreases n
  {
    if n >= 10 {
      DecimalValue(n / 10);
      var d := Decimal(n / 10);
      assert Decimal(n)[..|d|] == d;
    } else {
      var b: byte := 48 + n;
      var s := [b];
      assert s[..0] == [];
      assert DigitsValue(s) == 10 * DigitsValue(s[..0]) + (b as int - 48);
    }
  }

  lemma {:induction false} DigitsOfDigits(s: seq<byte>)
    requires AllDigits(s)
    ensures Digits(s) == s
    decreases |s|
  {
    if s != [] {
      DigitsOfDigits(s[1..]);
      assert s == [s[0]] + s[1..];
    }
  }

  /** What std::format writes of a 32-bit version, std::stoul reads back. */
  lemma StoulOfDecimal(n: u32)
    ensures Stoul(Decimal(n)) == Some(n)
  {
    hide Decimal, Digits, DigitsValue;
    DecimalIsDigits(n);
    DecimalValue(n);
    DigitsOfDigits(Decimal(n));
    assert IsDigit(Decimal(n)[0]);
  }

  lemma {:induction false} SkipsSpaces(spaces: seq<byte>, s: seq<byte>)
    requires (forall b :: b in spaces ==> b == 32 || 9 <= b <= 13) && (s == [] || !IsSpace(s[0]))
    ensures SkipSpace(spaces + s) == s
    decreases |spaces|
  {
    if spaces == [] {
      assert spaces + s == s;
    } else {
      assert spaces[0] in spaces && (spaces + s)[0] == spaces[0] && (spaces + s)[1..] == spaces[1..] + s;
      forall b | b in spaces[1..] ensures b == 32 || 9 <= b <= 13 { assert b in spaces; }
      SkipsSpaces(spaces[1..], s);
    }
  }

  lemma {:induction false} DigitsThenRest(s: seq<byte>, rest: seq<byte>)
    requires AllDigits(s) && (rest == [] || !IsDigit(rest[0]))
    ensures Digits(s + rest) == s
    decreases |s|
  {
    if s == [] {
      assert s + rest == rest;
    } else {
      assert (s + rest)[0] == s[0] && (s + rest)[1..] == s[1..] + rest && s == [s[0]] + s[1..];
      DigitsThenRest(s[1..], rest);
    }
  }

  /**
    What std::stoul makes of white space, a sign, digits and whatever follows them: the number, modulo
    2^64 if it is negative; nothing if there is no digit or the number has more than 64 bits.
   */
  lemma StoulReads(spaces: seq<byte>, sign: seq<byte>, digits: seq<byte>, rest: seq<byte>)
    requires (forall b :: b in spaces ==> b == 32 || 9 <= b <= 13) && (sign == [] || sign == [43] || sign == [45])
    requires AllDigits(digits) && (rest == [] || !IsDigit(rest[0]))
    requires digits != [] || (rest != [] && sign == [] ==> !IsSpace(rest[0]) && rest[0] != 43 && rest[0] != 45)
    ensures var v := DigitsValue(digits);
            Stoul(spaces + (sign + (digits + rest))) ==
            if digits == [] || v >= 0x1_0000_0000_0000_0000 then None
            else Some(if sign == [45] then (0x1_0000_0000_0000_0000 - v) % 0x1_0000_0000_0000_0000 else v)
  {
    hide Digits, DigitsValue, SkipSpace;
    var u := digits + rest;
    var t := sign + u;
    if digits != [] { assert digits[0] in digits && u[0] == digits[0]; }
    if sign == [] { assert t == u; } else { assert t[1..] == u && t[0] == sign[0]; }
    SkipsSpaces(spaces, t);
    DigitsThenRest(digits, rest);
    DigitsArePositive(digits);
  }

  lemma {:induction false} DigitsArePositive(s: seq<byte>)
    requires AllDigits(s)
    ensures DigitsValue(s) >= 0
    decreases |s|
  {
    if s != [] {
      assert s[|s| - 1] in s;
      DigitsArePositive(s[..|s| - 1]);
    }
  }

  lemma NoAtBehind(s: seq<byte>, i: nat, j: nat)
    requires i < j < |s| && AT !in s[i + 1..]
    ensures s[j] != AT
  {
    assert s[i + 1..][j - i - 1] == s[j];
  }

  lemma LastAtIsLast(s: seq<byte>, i: nat)
    requires i < |s| && s[i] == AT && AT !in s[i + 1..]
    ensures LastAt(s) == i
  {
    hide LastAt;
    var j: nat := LastAt(s);
    if j < i { NoAtBehind(s, j, i); }
    if i < j < |s| { NoAtBehind(s, i, j); }
  }

  /** Splitting at the last '@' finds name and version, whatever the name is. */
  lemma SpecIsParsed(p: Protocol)
    requires p.version < 0x1_0000_0000
    ensures ParseSpec(SpecString(p)) == Some(ServerSpec(p.name, p.version))
  {
    hide Decimal, Stoul, LastAt;
    var s, d := SpecString(p), Decimal(p.version);
    DecimalIsDigits(p.version);
    StoulOfDecimal(p.version);
    assert s[|p.name| + 1..] == d && s[..|p.name|] == p.name && s[|p.name|] == AT;
    LastAtIsLast(s, |p.name|);
  }

  /** Without an '@' the whole entry is the name, and the number it begins with the version. */
  lemma SpecWithoutAt(s: seq<byte>)
    requires AT !in s
    ensures ParseSpec(s) ==
            match Stoul(s)
            case None => None
            case Some(v) => Some(ServerSpec(s, v % 0x1_0000_0000))
  {
    hide Stoul;
    assert LastAt(s) == |s|;
    assert s[..|s|] == s;
  }

  /** Whatever the server lists, the client keeps what stands ahead of the first entry it cannot read. */
  lemma {:induction false} SpecsUpTo(names: seq<seq<byte>>, k: nat)
    requires k <= |names| && (k < |names| ==> ParseSpec(names[k]).None?)
    requires forall j :: 0 <= j < k ==> ParseSpec(names[j]).Some?
    ensures var (ok, specs) := ParseSpecs(names);
            && (ok <==> k == |names|) && |specs| == k
            && forall j :: 0 <= j < k ==> specs[j] == ParseSpec(names[j]).value
    decreases k
  {
    hide ParseSpec;
    if k > 0 { SpecsUpTo(names[1..], k - 1); }
  }

  /** An entry it cannot read ends the connection; the handshake counts as done either way. */
  lemma ListIsTaken(c: ClientState, names: seq<seq<byte>>, k: nat)
    requires k <= |names| && (k < |names| ==> ParseSpec(names[k]).None?)
    requires forall j :: 0 <= j < k ==> ParseSpec(names[j]).Some?
    ensures var (ok, c') := Receive(c, HandshakeProtocols(names));
            && ok && |c'.serverSpecs| == |c.serverSpecs| + k && c'.serverSpecs[..|c.serverSpecs|] == c.serverSpecs
            && (forall j :: 0 <= j < k ==> c'.serverSpecs[|c.serverSpecs| + j] == ParseSpec(names[j]).value)
            && c' == c.(serverSpecs := c'.serverSpecs, handshakeDone := true,
                        error := c.error || k < |names|, connected := c.connected && k == |names|)
  {
    hide ParseSpec, ParseSpecs;
    SpecsUpTo(names, k);
  }

  function SpecsOf(protocols: seq<Protocol>): seq<ServerSpec> {
    if protocols == [] then [] else [ServerSpec(protocols[0].name, protocols[0].version)] + SpecsOf(protocols[1..])
  }

  predicate Versions32(protocols: seq<Protocol>) { forall p :: p in protocols ==> p.version < 0x1_0000_0000 }

  lemma {:induction false} SpecsAreParsed(protocols: seq<Protocol>)
    requires Versions32(protocols)
    ensures ParseSpecs(SpecStrings(protocols)) == (true, SpecsOf(protocols))
    decreases |protocols|
  {
    hide ParseSpec, SpecString;
    if protocols != [] {
      SpecIsParsed(protocols[0]);
      SpecsAreParsed(protocols[1..]);
      assert SpecStrings(protocols)[1..] == SpecStrings(protocols[1..]);
    }
  }

  /** No name so long that the list cannot be sent. */
  predicate Sendable(protocols: seq<Protocol>) {
    |protocols| < LIMIT && forall p :: p in protocols ==> |p.name| + 11 < LIMIT
  }

  lemma {:induction false} DecimalLength(n: nat, k: nat)
    requires n < Power(k) && k >= 1
    ensures |Decimal(n)| <= k
    decreases k
  {
    if n >= 10 { DecimalLength(n / 10, k - 1); }
  }

  function Power(k: nat): nat { if k == 0 then 1 else 10 * Power(k - 1) }

  lemma TenDigits()
    ensures Power(10) == 10000000000
  {
    assert Power(3) == 1000;
    assert Power(6) == 1000 * Power(3);
    assert Power(9) == 1000 * Power(6);
  }

  lemma {:induction false} StringsAreShort(protocols: seq<Protocol>)
    requires Versions32(protocols) && forall p :: p in protocols ==> |p.name| + 11 < LIMIT
    ensures |SpecStrings(protocols)| == |protocols| && forall s :: s in SpecStrings(protocols) ==> |s| < LIMIT
    decreases |protocols|
  {
    hide Decimal, Power;
    if protocols != [] {
      StringsAreShort(protocols[1..]);
      TenDigits();
      DecimalLength(protocols[0].version, 10);
    }
  }

  /**
    The list of protocols across the wire, at any place of any buffer: encoded by the server, parsed
    by the client and split, it is the server's implementations, one by one and in order.
   */
  lemma SpecListArrives(protocols: seq<Protocol>, data: seq<byte>, off: nat)
    requires Versions32(protocols) && Sendable(protocols)
    requires var m := HandshakeProtocols(SpecStrings(protocols)); Encodable(m) ==> At(data, off, Encode(m))
    ensures var m := HandshakeProtocols(SpecStrings(protocols));
            && Encodable(m)
            && var f := ReadFrame(data, off, []);
            && f.Some? && f.value.next == off + |Encode(m)| && f.value.msg.HandshakeProtocols?
            && ParseSpecs(f.value.msg.names) == (true, SpecsOf(protocols))
  {
    hide At, Encode, ReadFrame, SpecStrings, ParseSpecs;
    StringsAreShort(protocols);
    SpecsAreParsed(protocols);
    var m := HandshakeProtocols(SpecStrings(protocols));
    EncodedIsRead(data, off, m, []);
    assert FdsOfMsg(m) + [] == [];
  }

  // ---- the whole handshake ----------------------------------------------------------------------

  lemma OneToServer(env: ServerEnv, s: ServerState, m: Msg)
    requires Encodable(m) && ToServer(m) && !m.Generic? && !s.error
    ensures DispatchBatch(env, s, Encode(m), []) == Acknowledge(Handle(env, s, m))
  {
    hide Octets, Encode, Handle, DispatchBatch;
    MalformedIsNoMessage(m);
    assert [m][1..] == [] && Octets(m) + [] == Octets(m);
    assert FdsOfAll([m]) == [] && FdsOfAll([m][1..]) == [];
    assert TakeUpTo(env, s, [m]) == Taken(Handle(env, s, m), 1, false);
    PostedOutcome(env, s, [m]);
  }

  lemma One(m: Msg)
    requires Encodable(m)
    ensures BytesOf([m]) == Encode(m)
  {
    hide Encode, Encodable;
    assert [m][1..] == [];
    assert Encode(m) + [] == Encode(m);
  }

  lemma OneToClient(c: ClientState, m: Msg)
    requires Encodable(m) && ToClient(m) && !m.Generic? && Receive(c, m).0
    ensures ClientParse(c, Encode(m), 0, []) == ClientBatch(Receive(c, m).1, [], |Encode(m)|, Accepted)
  {
    hide Encode, Receive, At, BytesOf;
    One(m);
    AtSelf(Encode(m));
    ClientStream(c, Encode(m), 0, [m], []);
    assert FdsOfAll([m]) == [] && [m][1..] == [];
    assert ReceiveAll(c, [m]) == (true, Receive(c, m).1);
  }

  /**
    The four messages of the handshake, octet for octet: Hello, the server's version, the client's
    acknowledgement, the list. Both parties end without error, on version 1, and the client knows the
    server's protocols and their versions.
   */
  lemma HandshakeCompletes(env: ServerEnv)
    requires Versions32(env.protocols) && Sendable(env.protocols)
    ensures Encodable(HandshakeBegin([PROTOCOL_VERSION])) && Encodable(HandshakeProtocols(SpecStrings(env.protocols)))
    ensures var s1 := DispatchBatch(env, NewServer, Encode(Hello), []);
            && s1.out == [HandshakeBegin([PROTOCOL_VERSION])]
            && var c1 := ClientParse(NewClient, Encode(s1.out[0]), 0, []).state;
            && c1.out == [Sent(Hello, 0, 0), Sent(HandshakeAck(PROTOCOL_VERSION), 0, 0)]
            && var s2 := DispatchBatch(env, s1, Encode(c1.out[1].msg), []);
            && s2.out == [s1.out[0], HandshakeProtocols(SpecStrings(env.protocols))]
                && s2.version == PROTOCOL_VERSION && !s2.error
            && var c2 := ClientParse(c1, Encode(s2.out[1]), 0, []).state;
            && c2 == c1.(handshakeDone := true, serverSpecs := SpecsOf(env.protocols)) && !c2.error
  {
    hide Encode, DispatchBatch, ClientParse, SpecStrings, ParseSpecs;
    StringsAreShort(env.protocols);
    SpecsAreParsed(env.protocols);
    OneToServer(env, NewServer, Hello);
    var s1 := DispatchBatch(env, NewServer, Encode(Hello), []);
    OneToClient(NewClient, s1.out[0]);
    var c1 := ClientParse(NewClient, Encode(s1.out[0]), 0, []).state;
    OneToServer(env, s1, HandshakeAck(PROTOCOL_VERSION));
    OneToClient(c1, HandshakeProtocols(SpecStrings(env.protocols)));
  }
}
