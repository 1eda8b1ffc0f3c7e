/**
  The ten messages of the wire protocol. Each is a code, a list of typed fields and END, so one
  grammar frames them all: `Encode` spells a message, `ReadFrame` is its inverse on any buffer.
 */
module Messages {
  import opened Bytes
  import opened VarInt
  import opened WireFormat
  import opened ArgWalk
  import opened Marshal
  import opened Scanner

  const SUP: byte := 1
  const HANDSHAKE_BEGIN: byte := 2
  const HANDSHAKE_ACK: byte := 3
  const HANDSHAKE_PROTOCOLS: byte := 4
  const BIND_PROTOCOL: byte := 10
  const NEW_OBJECT: byte := 11
  const FATAL_PROTOCOL_ERROR: byte := 12
  const ROUNDTRIP_REQUEST: byte := 13
  const ROUNDTRIP_DONE: byte := 14

  datatype Msg =
    | Hello
    | HandshakeBegin(versions: seq<u32>)
    | HandshakeAck(version: u32)
    | HandshakeProtocols(names: seq<seq<byte>>)
    | BindProtocol(protocol: seq<byte>, seqNo: u32, version: u32)
    | NewObject(id: u32, seqNo: u32)
    | Generic(objectId: u32, methodId: u32, args: seq<Arg>, fds: seq<int>)
    | FatalError(objectId: u32, errorId: u32, text: seq<byte>)
    | RoundtripRequest(seqNo: u32)
    | RoundtripDone(seqNo: u32)

  const VAX: seq<byte> := [0x56, 0x41, 0x58]

  function Code(m: Msg): byte {
    match m
    case Hello => SUP
    case HandshakeBegin(_) => HANDSHAKE_BEGIN
    case HandshakeAck(_) => HANDSHAKE_ACK
    case HandshakeProtocols(_) => HANDSHAKE_PROTOCOLS
    case BindProtocol(_, _, _) => BIND_PROTOCOL
    case NewObject(_, _) => NEW_OBJECT
    case Generic(_, _, _, _) => GENERIC
    case FatalError(_, _, _) => FATAL_PROTOCOL_ERROR
    case RoundtripRequest(_) => ROUNDTRIP_REQUEST
    case RoundtripDone(_) => ROUNDTRIP_DONE
  }

  function Fields(m: Msg): seq<Arg> {
    match m
    case Hello => [Varchar(Text(1, VAX))]
    case HandshakeBegin(versions) => [WordArray(UINT, MinWidth(|versions|), versions)]
    case HandshakeAck(version) => [Word(UINT, version)]
    case HandshakeProtocols(names) => [TextArray(MinWidth(|names|), CountedAll(names))]
    case BindProtocol(protocol, seqNo, version) => [Word(UINT, seqNo), Varchar(Counted(protocol)), Word(UINT, version)]
    case NewObject(id, seqNo) => [Word(UINT, id), Word(UINT, seqNo)]
    case Generic(objectId, methodId, args, _) => [Word(OBJECT, objectId), Word(UINT, methodId)] + args
    case FatalError(objectId, errorId, text) => [Word(UINT, objectId), Word(UINT, errorId), Varchar(Counted(text))]
    case RoundtripRequest(seqNo) => [Word(UINT, seqNo)]
    case RoundtripDone(seqNo) => [Word(UINT, seqNo)]
  }

  /** The messages whose octets bring them across: no length of 2^28 or more, no bind to version 0. */
  predicate Encodable(m: Msg) {
    match m
    case HandshakeBegin(versions) => |versions| < LIMIT
    case HandshakeProtocols(names) => |names| < LIMIT && forall n :: n in names ==> |n| < LIMIT
    case BindProtocol(protocol, _, version) => |protocol| < LIMIT && version != 0
    case Generic(_, _, args, fds) => ValidArgs(args) && |fds| == FdTotal(args)
    case FatalError(_, _, text) => |text| < LIMIT
    case _ => true
  }

  lemma FieldsAreValid(m: Msg)
    requires Encodable(m)
    ensures ValidArgs(Fields(m))
  {
    hide Capacity, Spell, MinWidth;
    match m {
      case HandshakeBegin(versions) => SpellShort(|versions|);
      case HandshakeProtocols(names) => SpellShort(|names|); CountedAllIsValid(names);
      case BindProtocol(protocol, _, _) => SpellShort(|protocol|);
      case FatalError(_, _, text) => SpellShort(|text|);
      case Hello => SpellGroups1(0);
      case _ =>
    }
  }

  function Encode(m: Msg): seq<byte>
    requires Encodable(m)
  {
    FieldsAreValid(m);
    [Code(m)] + ArgsBytes(Fields(m)) + [END]
  }

  /** Messages that have octets at all: a bind to version 0 is spelled like any other, and given up when read. */
  predicate Postable(m: Msg) { Encodable(m) || (m.BindProtocol? && m.version == 0 && |m.protocol| < LIMIT) }

  lemma PostedFieldsAreValid(m: Msg)
    requires Postable(m)
    ensures ValidArgs(Fields(m))
  {
    hide Capacity, Spell, MinWidth;
    if Encodable(m) { FieldsAreValid(m); } else { SpellShort(|m.protocol|); }
  }

  /** The octets the sending constructor lays out. */
  function Octets(m: Msg): (r: seq<byte>)
    requires Postable(m)
    ensures Encodable(m) ==> r == Encode(m)
  {
    PostedFieldsAreValid(m);
    [Code(m)] + ArgsBytes(Fields(m)) + [END]
  }

  /** What goes through the socket in one sendmsg. */
  datatype Packet = Packet(data: seq<byte>, fds: seq<int>)

  function FdsOfMsg(m: Msg): seq<int> { if m.Generic? then m.fds else [] }

  // ---- reading ----------------------------------------------------------------------------

  function CharsOf(texts: seq<Text>): (r: seq<seq<byte>>)
    ensures |r| == |texts|
  {
    if texts == [] then [] else [texts[0].chars] + CharsOf(texts[1..])
  }

  predicate IsUint(a: Arg) { a.Word? && a.kind == UINT }

  /** The message a code and its fields stand for; descriptors come off the front of `fds`. */
  function Interpret(code: byte, args: seq<Arg>, fds: seq<int>): Option<Msg> {
    if code == SUP then
      if args == [Varchar(Text(1, VAX))] then Some(Hello) else None
    else if code == HANDSHAKE_BEGIN then
      if |args| == 1 && args[0].WordArray? && args[0].kind == UINT then Some(HandshakeBegin(args[0].words)) else None
    else if code == HANDSHAKE_ACK then
      if |args| == 1 && IsUint(args[0]) then Some(HandshakeAck(args[0].value)) else None
    else if code == HANDSHAKE_PROTOCOLS then
      if |args| == 1 && args[0].TextArray? then Some(HandshakeProtocols(CharsOf(args[0].texts))) else None
    else if code == BIND_PROTOCOL then
      if |args| == 3 && IsUint(args[0]) && args[1].Varchar? && IsUint(args[2]) && args[2].value != 0
      then Some(BindProtocol(args[1].text.chars, args[0].value, args[2].value)) else None
    else if code == NEW_OBJECT then
      if |args| == 2 && IsUint(args[0]) && IsUint(args[1]) then Some(NewObject(args[0].value, args[1].value)) else None
    else if code == GENERIC then
      if |args| >= 2 && args[0].Word? && args[0].kind == OBJECT && IsUint(args[1]) && FdTotal(args[2..]) <= |fds|
      then Some(Generic(args[0].value, args[1].value, args[2..], fds[..FdTotal(args[2..])])) else None
    else if code == FATAL_PROTOCOL_ERROR then
      if |args| == 3 && IsUint(args[0]) && IsUint(args[1]) && args[2].Varchar?
      then Some(FatalError(args[0].value, args[1].value, args[2].text.chars)) else None
    else if code == ROUNDTRIP_REQUEST then
      if |args| == 1 && IsUint(args[0]) then Some(RoundtripRequest(args[0].value)) else None
    else if code == ROUNDTRIP_DONE then
      if |args| == 1 && IsUint(args[0]) then Some(RoundtripDone(args[0].value)) else None
    else None
  }

  datatype FrameEnd = FrameEnd(msg: Msg, next: nat)

  /** The message that stands at `off`, and where the next one begins. */
  function ReadFrame(data: seq<byte>, off: nat, fds: seq<int>): (r: Option<FrameEnd>)
    ensures r.Some? ==> off + 1 < r.value.next <= |data| && FdsOfMsg(r.value.msg) <= fds
  {
    if off >= |data| then None
    else
      match ReadArgs(data, off + 1)
      case None => None
      case Some(e) =>
        match Interpret(data[off], e.args, fds)
        case None => None
        case Some(m) => Some(FrameEnd(m, e.next))
  }

  lemma {:induction false} CharsOfCounted(names: seq<seq<byte>>)
    ensures CharsOf(CountedAll(names)) == names
    decreases |names|
  {
    if names != [] {
      CharsOfCounted(names[1..]);
      assert CountedAll(names)[1..] == CountedAll(names[1..]);
      assert names == [names[0]] + names[1..];
    }
  }

  lemma FieldsAreInterpreted(m: Msg, more: seq<int>)
    requires Encodable(m)
    ensures Interpret(Code(m), Fields(m), FdsOfMsg(m) + more) == Some(m)
  {
    hide MinWidth, ValidArg;
    match m {
      case HandshakeProtocols(names) => CharsOfCounted(names);
      case Generic(_, _, args, fds) =>
        assert Fields(m)[2..] == args;
        assert (fds + more)[..|fds|] == fds;
      case _ =>
    }
  }

  /** An encoded message is read back at any offset, before any octets, with any descriptors behind its own. */
  lemma EncodedIsRead(data: seq<byte>, off: nat, m: Msg, more: seq<int>)
    requires Encodable(m) && At(data, off, Encode(m))
    ensures ReadFrame(data, off, FdsOfMsg(m) + more) == Some(FrameEnd(m, off + |Encode(m)|))
  {
    hide Interpret, Fields, ArgsBytes, Code, Encodable, ReadArgs, At, FdsOfMsg;
    FieldsAreValid(m);
    var body := ArgsBytes(Fields(m)) + [END];
    assert Encode(m) == [Code(m)] + body;
    AtSplit(data, off, [Code(m)], body);
    AtHead(data, off, Code(m));
    ArgsAreRead(data, off + 1, Fields(m));
    FieldsAreInterpreted(m, more);
  }

  /** A bind to version 0 is no message, wherever it stands. */
  lemma BindToZeroIsRefused(data: seq<byte>, off: nat, m: Msg, fds: seq<int>)
    requires Postable(m) && !Encodable(m) && At(data, off, Octets(m))
    ensures off < |data| && ReadFrame(data, off, fds).None?
  {
    hide ArgsBytes, ReadArgs, At, Fields, Code;
    PostedFieldsAreValid(m);
    var body := ArgsBytes(Fields(m)) + [END];
    assert Octets(m) == [Code(m)] + body;
    AtSplit(data, off, [Code(m)], body);
    AtHead(data, off, Code(m));
    ArgsAreRead(data, off + 1, Fields(m));
    ZeroIsNotInterpreted(m, fds);
  }

  lemma ZeroIsNotInterpreted(m: Msg, fds: seq<int>)
    requires m.BindProtocol? && m.version == 0
    ensures Interpret(Code(m), Fields(m), fds).None?
  {}

  /** Every frame that is read ends in END, lies inside the buffer, and is as long as its grammar says. */
  lemma ReadFrameIsThere(data: seq<byte>, off: nat, fds: seq<int>)
    requires ReadFrame(data, off, fds).Some?
    ensures var f := ReadFrame(data, off, fds).value;
            var e := ReadArgs(data, off + 1).value;
            && off + 1 < f.next <= |data| && data[f.next - 1] == END
            && ValidArgs(e.args)
            && At(data, off, [data[off]] + ArgsBytes(e.args) + [END])
            && f.next == off + 2 + |ArgsBytes(e.args)|
            && data[off] == Code(f.msg)
            && (f.msg.Generic? ==> ValidArgs(f.msg.args) && |f.msg.fds| == FdTotal(f.msg.args))
  {
    hide ReadArgs, ArgsBytes, At, FdTotal, ValidArg;
    ReadArgsAreThere(data, off + 1);
    var e := ReadArgs(data, off + 1).value;
    AtHead(data, off, data[off]);
    AtSplit(data, off, [data[off]], ArgsBytes(e.args) + [END]);
    assert [data[off]] + (ArgsBytes(e.args) + [END]) == [data[off]] + ArgsBytes(e.args) + [END];
  }

  lemma ValidIsShort(value: nat, width: nat)
    requires ValidCount(value, width)
    ensures value < LIMIT
  {
    assert Capacity(1) == 128 && Capacity(2) == 128 * 128 && Capacity(3) == 128 * 128 * 128;
  }

  lemma {:induction false} CharsAreShort(texts: seq<Text>)
    requires forall t :: t in texts ==> ValidText(t)
    ensures forall s :: s in CharsOf(texts) ==> |s| < LIMIT
    decreases |texts|
  {
    hide ValidCount;
    if texts != [] {
      assert ValidText(texts[0]);
      ValidIsShort(|texts[0].chars|, texts[0].width);
      CharsAreShort(texts[1..]);
    }
  }

  /** Whatever is read has no count of 2^28 or more, and no bind to version 0. */
  lemma ReadIsEncodable(data: seq<byte>, off: nat, fds: seq<int>)
    requires ReadFrame(data, off, fds).Some?
    ensures Encodable(ReadFrame(data, off, fds).value.msg)
  {
    hide ReadArgs, ArgsBytes, FdTotal, ValidCount;
    ReadFrameIsThere(data, off, fds);
    var args := ReadArgs(data, off + 1).value.args;
    if args != [] { assert args[0] in args; }
    if |args| > 1 { assert args[1] in args; }
    if |args| > 2 { assert args[2] in args; }
    match ReadFrame(data, off, fds).value.msg {
      case HandshakeBegin(versions) => ValidIsShort(|versions|, args[0].width);
      case HandshakeProtocols(names) =>
        ValidIsShort(|args[0].texts|, args[0].width);
        CharsAreShort(args[0].texts);
      case BindProtocol(protocol, _, _) => ValidIsShort(|protocol|, args[1].text.width);
      case FatalError(_, _, text) => ValidIsShort(|text|, args[2].text.width);
      case _ =>
    }
  }

  /** The generic frames of this grammar are those of the scanner. */
  lemma GenericFrame(data: seq<byte>, off: nat, fds: seq<int>)
    requires off < |data| && data[off] == GENERIC
    ensures ReadFrame(data, off, fds) ==
            match ReadGeneric(data, off)
            case None => None
            case Some(g) =>
              if FdTotal(g.args) > |fds| then None
              else Some(FrameEnd(Generic(g.objectId, g.methodId, g.args, fds[..FdTotal(g.args)]), g.next))
  {
    hide ReadArgs, FdTotal;
  }

  // ---- reading field by field -------------------------------------------------------------

  lemma NextField(data: seq<byte>, i: nat)
    ensures ReadArgs(data, i).Some? ==>
              && i < |data|
              && (ReadArgs(data, i).value.args == [] <==> data[i] == END)
              && (data[i] != END ==> Magic(ReadArgs(data, i).value.args[0]) == data[i])
    ensures i < |data| && data[i] == END ==> ReadArgs(data, i) == Some(ArgsEnd([], i + 1))
  {
    hide ReadArg, Magic;
    if ReadArgs(data, i).Some? && data[i] != END { ReadArgMagic(data, i); }
  }

  lemma WordField(data: seq<byte>, i: nat)
    requires i < |data| && IsWord(data[i])
    ensures ReadArgs(data, i) ==
            if i + 5 <= |data| then Then([Word(data[i], WordAt(data, i + 1))], ReadArgs(data, i + 5)) else None
  {
    hide WordAt, ReadArray, ReadText;
    var rest := ReadArgs(data, i + 5);
  }

  lemma TextField(data: seq<byte>, i: nat)
    requires i < |data| && data[i] == VARCHAR
    ensures ReadArgs(data, i) ==
            match ReadText(data, i + 1)
            case None => None
            case Some(t) => Then([Varchar(t.text)], ReadArgs(data, t.next))
  {
    hide WordAt, ReadArray, ReadText;
    var t := ReadText(data, i + 1);
    if t.Some? { var rest := ReadArgs(data, t.value.next); }
  }

  lemma ArrayField(data: seq<byte>, i: nat)
    requires i < |data| && data[i] == ARRAY
    ensures ReadArgs(data, i) ==
            match ReadArray(data, i)
            case None => None
            case Some(a) => Then([a.arg], ReadArgs(data, a.next))
    ensures ReadArray(data, i).Some? ==>
              i + 1 < |data| && (ReadArray(data, i).value.arg.WordArray? <==> IsWord(data[i + 1]))
              && (ReadArray(data, i).value.arg.TextArray? <==> data[i + 1] == VARCHAR)
              && (ReadArray(data, i).value.arg.WordArray? ==> ReadArray(data, i).value.arg.kind == data[i + 1])
  {
    hide WordAt, ReadText, ReadWords, ReadTexts, ReadCount;
    var a := ReadArray(data, i);
    if a.Some? { var rest := ReadArgs(data, a.value.next); }
  }

  // ---- the octets themselves ------------------------------------------------------------------

  lemma ShortText(s: seq<byte>)
    requires |s| < 128
    ensures ArgBytes(Varchar(Counted(s))) == [0x20, |s|] + s && ArgBytes(Varchar(Text(1, s))) == [0x20, |s|] + s
  {}

  lemma WordOctets(kind: byte, w: u32)
    requires IsWord(kind)
    ensures ArgBytes(Arg.Word(kind, w)) == [kind, w % 256, w / 256 % 256, w / 256 / 256 % 256, w / 256 / 256 / 256]
  {}

  lemma OneArg(a: Arg)
    requires ValidArg(a)
    ensures ArgsBytes([a]) == ArgBytes(a)
  {
    hide ArgBytes;
    assert [a][1..] == [] && ArgBytes(a) + [] == ArgBytes(a);
  }

  lemma MoreArgs(a: Arg, more: seq<Arg>)
    requires ValidArg(a) && ValidArgs(more)
    ensures ArgsBytes([a] + more) == ArgBytes(a) + ArgsBytes(more)
  {
    hide ArgBytes;
    assert ([a] + more)[1..] == more;
  }

  /** The greeting, as the protocol's description spells it. */
  lemma GreetingOctets()
    ensures Encode(Hello) == [0x01, 0x20, 0x03, 0x56, 0x41, 0x58, 0x00]
  {
    hide ArgBytes;
    ShortText([0x56, 0x41, 0x58]);
    OneArg(Varchar(Text(1, VAX)));
  }

  /** Control messages of words alone. */
  lemma WordFrames(a: u32, b: u32)
    requires a < 256 && b < 256
    ensures Encode(HandshakeAck(a)) == [3, 0x10, a, 0, 0, 0, 0]
    ensures Encode(NewObject(a, b)) == [11, 0x10, a, 0, 0, 0, 0x10, b, 0, 0, 0, 0]
    ensures Encode(RoundtripRequest(a)) == [13, 0x10, a, 0, 0, 0, 0]
    ensures Encode(RoundtripDone(a)) == [14, 0x10, a, 0, 0, 0, 0]
  {
    hide ArgBytes;
    WordOctets(UINT, a);
    WordOctets(UINT, b);
    OneArg(Arg.Word(UINT, a));
    OneArg(Arg.Word(UINT, b));
    MoreArgs(Arg.Word(UINT, a), [Arg.Word(UINT, b)]);
  }

  lemma SmallWord(kind: byte, w: u32)
    requires IsWord(kind) && w < 256
    ensures ValidArg(Arg.Word(kind, w)) && ArgBytes(Arg.Word(kind, w)) == [kind, w, 0, 0, 0]
  {
    hide ArgBytes;
    WordOctets(kind, w);
  }

  lemma SmallText(text: seq<byte>)
    requires |text| < 128
    ensures ValidArg(Varchar(Counted(text))) && ArgBytes(Varchar(Counted(text))) == [0x20, |text|] + text
  {
    hide ArgBytes, Capacity, Spell, MinWidth;
    SpellShort(|text|);
    ShortText(text);
  }

  lemma ThreeArgs(a: Arg, b: Arg, c: Arg)
    requires ValidArg(a) && ValidArg(b) && ValidArg(c)
    ensures ArgsBytes([a, b, c]) == ArgBytes(a) + (ArgBytes(b) + ArgBytes(c))
  {
    hide ArgBytes, ArgsBytes, ValidArg;
    OneArg(c);
    MoreArgs(b, [c]);
    MoreArgs(a, [b] + [c]);
    assert [a] + ([b] + [c]) == [a, b, c];
  }

  lemma FrameOf(m: Msg, body: seq<byte>)
    requires Encodable(m) && ValidArgs(Fields(m)) && ArgsBytes(Fields(m)) == body
    ensures Encode(m) == [Code(m)] + body + [END]
  {
    hide Code, Fields, ArgsBytes, Encodable;
  }

  lemma BindOctets(text: seq<byte>, a: u32, b: u32)
    requires |text| < 128 && a < 256 && 0 < b < 256
    ensures Encode(BindProtocol(text, a, b)) == [10, 0x10, a, 0, 0, 0, 0x20, |text|] + text + [0x10, b, 0, 0, 0, 0]
  {
    hide ArgBytes, ArgsBytes, Encode, ValidArg, Counted;
    SmallWord(UINT, a);
    SmallWord(UINT, b);
    SmallText(text);
    var x, y, t := Arg.Word(UINT, a), Arg.Word(UINT, b), Varchar(Counted(text));
    ThreeArgs(x, t, y);
    FrameOf(BindProtocol(text, a, b), ArgBytes(x) + (ArgBytes(t) + ArgBytes(y)));
  }

  lemma FatalOctets(text: seq<byte>, a: u32, b: u32)
    requires |text| < 128 && a < 256 && b < 256
    ensures Encode(FatalError(a, b, text)) == [12, 0x10, a, 0, 0, 0, 0x10, b, 0, 0, 0, 0x20, |text|] + text + [0]
  {
    hide ArgBytes, ArgsBytes, Encode, ValidArg, Counted;
    SmallWord(UINT, a);
    SmallWord(UINT, b);
    SmallText(text);
    var x, y, t := Arg.Word(UINT, a), Arg.Word(UINT, b), Varchar(Counted(text));
    ThreeArgs(x, y, t);
    FrameOf(FatalError(a, b, text), ArgBytes(x) + (ArgBytes(y) + ArgBytes(t)));
  }

  /** A bind and a fatal error with short texts. */
  lemma TextFrames(text: seq<byte>, a: u32, b: u32)
    requires |text| < 128 && a < 256 && 0 < b < 256
    ensures Encode(BindProtocol(text, a, b)) ==
            [10, 0x10, a, 0, 0, 0, 0x20, |text|] + text + [0x10, b, 0, 0, 0, 0]
    ensures Encode(FatalError(a, b, text)) ==
            [12, 0x10, a, 0, 0, 0, 0x10, b, 0, 0, 0, 0x20, |text|] + text + [0]
  {
    hide Encode;
    BindOctets(text, a, b);
    FatalOctets(text, a, b);
  }

  lemma ListOfOne(a: u32, name: seq<byte>)
    requires a < 256 && |name| < 128
    ensures ArgBytes(WordArray(UINT, MinWidth(1), [a])) == [0x21, 0x10, 1, a, 0, 0, 0]
    ensures ArgBytes(TextArray(MinWidth(1), CountedAll([name]))) == [0x21, 0x20, 1, |name|] + name
  {
    assert [a][1..] == [] && [name][1..] == [];
    assert WordsBytes([a]) == [a, 0, 0, 0];
    assert CountedAll([name]) == [Counted(name)] && [Counted(name)][1..] == [];
    assert TextsBytes([Counted(name)]) == [|name|] + name;
  }

  /** The lists of the handshake, one entry each. */
  lemma ListFrames(a: u32, name: seq<byte>)
    requires a < 256 && |name| < 128
    ensures Encode(HandshakeBegin([a])) == [2, 0x21, 0x10, 1, a, 0, 0, 0, 0]
    ensures Encode(HandshakeProtocols([name])) == [4, 0x21, 0x20, 1, |name|] + name + [0]
  {
    hide ArgBytes, ArgsBytes, Encode, ValidArg, CountedAll, MinWidth;
    ListOfOne(a, name);
    var begin, list := HandshakeBegin([a]), HandshakeProtocols([name]);
    FieldsAreValid(begin);
    FieldsAreValid(list);
    OneArg(Fields(begin)[0]);
    OneArg(Fields(list)[0]);
    FrameOf(begin, ArgBytes(Fields(begin)[0]));
    FrameOf(list, ArgBytes(Fields(list)[0]));
  }

  /** A call: its header and, behind it, the octets of its arguments. */
  lemma CallFrame(object_: u32, methodId: u32, args: seq<Arg>, fds: seq<int>)
    requires object_ < 256 && methodId < 256 && ValidArgs(args) && |fds| == FdTotal(args)
    ensures Encode(Generic(object_, methodId, args, fds)) ==
            [100, 0x22, object_, 0, 0, 0, 0x10, methodId, 0, 0, 0] + ArgsBytes(args) + [0]
  {
    hide ArgBytes, ArgsBytes, FdTotal;
    WordOctets(OBJECT, object_);
    WordOctets(UINT, methodId);
    MoreArgs(Arg.Word(UINT, methodId), args);
    MoreArgs(Arg.Word(OBJECT, object_), [Arg.Word(UINT, methodId)] + args);
    assert Fields(Generic(object_, methodId, args, fds)) ==
           [Arg.Word(OBJECT, object_)] + ([Arg.Word(UINT, methodId)] + args);
  }

  /** The octets of the arguments that are no arrays. */
  lemma PlainOctets(w: u32, text: seq<byte>)
    requires w < 256 && |text| < 128
    ensures ArgBytes(Arg.Word(UINT, w)) == [0x10, w, 0, 0, 0] && ArgBytes(Arg.Word(INT, w)) == [0x11, w, 0, 0, 0]
    ensures ArgBytes(Arg.Word(F32, w)) == [0x12, w, 0, 0, 0] && ArgBytes(Arg.Word(SEQ, w)) == [0x13, w, 0, 0, 0]
    ensures ArgBytes(Arg.Word(OBJECT, w)) == [0x22, w, 0, 0, 0]
    ensures ArgBytes(Varchar(Text(1, text))) == [0x20, |text|] + text && ArgBytes(Arg.Fd) == [0x40]
  {
    hide ArgBytes;
    WordOctets(UINT, w);
    WordOctets(INT, w);
    WordOctets(F32, w);
    WordOctets(SEQ, w);
    WordOctets(OBJECT, w);
    ShortText(text);
    FdOctet();
  }

  lemma FdOctet()
    ensures ArgBytes(Arg.Fd) == [0x40]
  {}

  /** The octets of arrays of descriptors, words and strings: kind, count and elements without a kind. */
  lemma ArrayOctets(w: u32, text: seq<byte>, count: nat)
    requires w < 256 && |text| < 128 && count < 128
    ensures ArgBytes(FdArray(1, count)) == [0x21, 0x40, count]
    ensures ArgBytes(WordArray(INT, 1, [w])) == [0x21, 0x11, 1] + [w, 0, 0, 0]
    ensures ArgBytes(TextArray(1, [Text(1, text)])) == [0x21, 0x20, 1] + ([|text|] + text)
  {
    hide WordsBytes, TextsBytes;
    OneWord(w);
    OneText(text);
  }

  lemma OneWord(w: u32)
    requires w < 256
    ensures WordsBytes([w]) == [w, 0, 0, 0]
  {
    assert [w][1..] == [];
  }

  lemma OneText(text: seq<byte>)
    requires |text| < 128
    ensures TextsBytes([Text(1, text)]) == [|text|] + text
  {
    var t := Text(1, text);
    assert [t][1..] == [];
  }
}
