/** IWireObject::call: writing a typed argument list, and what becomes of it at the other end. */
module Marshal {
  import opened Bytes
  import opened VarInt
  import opened WireFormat
  import opened Demarshal

  /** One of the arguments a caller passes; strings are C strings and end at their NUL. */
  datatype CallArg =
    | WordArg(word: u32)
    | TextArg(chars: seq<byte>)
    | FdArg(fd: int)
    | WordsArg(words: seq<u32>)
    | TextsArg(strings: seq<seq<byte>>)
    | FdsArg(fds: seq<int>)

  /** `BadArray` is the branch for an element type that cannot be marshalled, `Thrown` that of `params.at`. */
  datatype Packed = Bytes(data: seq<byte>, fds: seq<int>) | BadArray | Thrown

  /** The word kinds a method may declare; SEQ is written for a return value only. */
  predicate IsSent(kind: byte) { kind == UINT || kind == INT || kind == OBJECT || kind == F32 }

  predicate CString(s: seq<byte>) { 0 !in s && |s| < 0x1_0000_0000_0000_0000 }

  predicate FitsArray(elem: byte, a: CallArg) {
    if IsSent(elem) then a.WordsArg? && |a.words| < 0x1_0000_0000
    else if elem == VARCHAR then a.TextsArg? && |a.strings| < 0x1_0000_0000 && forall s :: s in a.strings ==> CString(s)
    else a.FdsArg? && |a.fds| < 0x1_0000_0000
  }

  predicate KnownElem(elem: byte) { IsSent(elem) || elem == VARCHAR || elem == FD }

  /** The arguments are those the parameters from octet `i` on tell `va_arg` to take. */
  predicate Fits(params: seq<byte>, i: nat, args: seq<CallArg>)
    decreases |params| - i
  {
    if i >= |params| then args == []
    else if params[i] == ARRAY then
      if i + 1 >= |params| || !KnownElem(params[i + 1]) then true
      else args != [] && FitsArray(params[i + 1], args[0]) && Fits(params, i + 2, args[1..])
    else if IsSent(params[i]) then args != [] && args[0].WordArg? && Fits(params, i + 1, args[1..])
    else if params[i] == VARCHAR then args != [] && args[0].TextArg? && CString(args[0].chars)
        && Fits(params, i + 1, args[1..])
    else if params[i] == FD then args != [] && args[0].FdArg? && Fits(params, i + 1, args[1..])
    else Fits(params, i + 1, args)
  }

  /** `encodeVarInt`: the shortest spelling of the low 28 bits. */
  function SpellLow(n: nat): seq<byte> {
    SpellLowIsFine(n);
    Spell(n % LIMIT, MinWidth(n % LIMIT))
  }

  lemma SpellLowIsFine(n: nat)
    ensures n % LIMIT < Capacity(MinWidth(n % LIMIT))
  {}

  function PackTexts(strings: seq<seq<byte>>): seq<byte> {
    if strings == [] then [] else SpellLow(|strings[0]|) + strings[0] + PackTexts(strings[1..])
  }

  function PackArray(elem: byte, a: CallArg): seq<byte>
    requires KnownElem(elem) && FitsArray(elem, a)
  {
    if IsSent(elem) then [ARRAY, elem] + SpellLow(|a.words|) + WordsBytes(a.words)
    else if elem == VARCHAR then [ARRAY, elem] + SpellLow(|a.strings|) + PackTexts(a.strings)
    else [ARRAY, elem] + SpellLow(|a.fds|)
  }

  function Sends(a: CallArg): seq<int> {
    match a case FdArg(fd) => [fd] case FdsArg(fds) => fds case _ => []
  }

  function Before(data: seq<byte>, fds: seq<int>, p: Packed): Packed {
    match p case Bytes(d, f) => Bytes(data + d, fds + f) case _ => p
  }

  /** The octets and descriptors written for the parameters from `i` on. */
  function Pack(params: seq<byte>, i: nat, args: seq<CallArg>): Packed
    requires Fits(params, i, args)
    decreases |params| - i
  {
    if i >= |params| then Bytes([], [])
    else if params[i] == ARRAY then
      if i + 1 >= |params| then Packed.Thrown
      else if !KnownElem(params[i + 1]) then BadArray
      else Before(PackArray(params[i + 1], args[0]), Sends(args[0]), Pack(params, i + 2, args[1..]))
    else if IsSent(params[i]) then Before([params[i]] + Le32(args[0].word), [], Pack(params, i + 1, args[1..]))
    else if params[i] == VARCHAR then
      Before([VARCHAR] + (SpellLow(|args[0].chars|) + args[0].chars), [], Pack(params, i + 1, args[1..]))
    else if params[i] == FD then Before([FD], [args[0].fd], Pack(params, i + 1, args[1..]))
    else Pack(params, i + 1, args)
  }

  lemma BeforeTwice(d: seq<byte>, f: seq<int>, d': seq<byte>, f': seq<int>, p: Packed)
    ensures Before(d, f, Before(d', f', p)) == Before(d + d', f + f', p)
  {
    if p.Bytes? {
      assert d + (d' + p.data) == d + d' + p.data;
      assert f + (f' + p.fds) == f + f' + p.fds;
    }
  }

  method MarshalArray(arrType: byte, arg: CallArg) returns (data: seq<byte>, fds: seq<int>)
    requires KnownElem(arrType) && FitsArray(arrType, arg)
    ensures data == PackArray(arrType, arg) && fds == Sends(arg)
  {
    hide SpellLow, Le32;
    data, fds := [ARRAY, arrType], [];
    if IsSent(arrType) {
      var len := EncodeLength(|arg.words|);
      data := data + len;
      ghost var head := data;
      var j := 0;
      assert head + WordsBytes(arg.words) == data + WordsBytes(arg.words[0..]);
      while j < |arg.words|
        invariant 0 <= j <= |arg.words|
        invariant head + WordsBytes(arg.words) == data + WordsBytes(arg.words[j..])
      {
        assert arg.words[j..][1..] == arg.words[j + 1..];
        assert data + (Le32(arg.words[j]) + WordsBytes(arg.words[j + 1..]))
              == data + Le32(arg.words[j]) + WordsBytes(arg.words[j + 1..]);
        data := data + Le32(arg.words[j]);
        j := j + 1;
      }
      assert data + [] == data;
    } else if arrType == FD {
      var len := EncodeLength(|arg.fds|);
      data := data + len;
      var j := 0;
      while j < |arg.fds|
        invariant 0 <= j <= |arg.fds| && fds == arg.fds[..j]
      {
        fds := fds + [arg.fds[j]];
        j := j + 1;
      }
    } else {
      var len := EncodeLength(|arg.strings|);
      data := data + len;
      ghost var head := data;
      var j := 0;
      assert arg.strings[0..] == arg.strings;
      while j < |arg.strings|
        invariant 0 <= j <= |arg.strings|
        invariant head + PackTexts(arg.strings) == data + PackTexts(arg.strings[j..])
      {
        var s := arg.strings[j];
        assert s in arg.strings;
        var sl := EncodeLength(|s|);
        assert arg.strings[j..][1..] == arg.strings[j + 1..] && arg.strings[j..][0] == s;
        assert data + (sl + s + PackTexts(arg.strings[j + 1..])) == data + sl + s + PackTexts(arg.strings[j + 1..]);
        data := data + sl;
        data := data + s;
        j := j + 1;
      }
      assert data + [] == data;
    }
  }

  method EncodeLength(n: nat) returns (data: seq<byte>)
    requires n < 0x1_0000_0000_0000_0000
    ensures data == SpellLow(n)
  {
    data := EncodeVarInt(n);
  }

  /** The code, OBJECT and UINT words every generic frame begins with. */
  function Header(objectId: u32, methodId: u32): seq<byte> {
    [100, OBJECT] + Le32(objectId) + [UINT] + Le32(methodId)
  }

  function SeqBytes(returnSeq: Option<u32>): seq<byte> {
    match returnSeq case None => [] case Some(s) => [SEQ] + Le32(s)
  }

  method StartCall(objectId: u32, methodId: u32, returnSeq: Option<u32>) returns (data: seq<byte>)
    ensures data == Header(objectId, methodId) + SeqBytes(returnSeq)
  {
    hide Le32;
    data := [100];
    data := data + [OBJECT];
    data := data + Le32(objectId);
    data := data + [UINT];
    data := data + Le32(methodId);
    if returnSeq.Some? {
      data := data + [SEQ];
      data := data + Le32(returnSeq.value);
    }
  }

  /** The marshalling part of IWireObject::call; octets and descriptors grow as it goes. */
  method MarshalCall(objectId: u32, methodId: u32, params: seq<byte>, returnSeq: Option<u32>, args: seq<CallArg>)
    returns (r: Packed)
    requires Fits(params, 0, args)
    ensures r == match Pack(params, 0, args)
                 case Bytes(body, fds) => Bytes(Header(objectId, methodId) + SeqBytes(returnSeq) + body + [END], fds)
                 case other => other
  {
    hide SpellLow, Le32, CString, FitsArray, PackArray, Header, SeqBytes;
    var data, fds: seq<int>;
    data := StartCall(objectId, methodId, returnSeq);
    fds := [];
    ghost var head := data;
    ghost var body: seq<byte> := [];
    var i: nat, k: nat := 0, 0;
    BeforeNothing(Pack(params, 0, args));
    assert args[0..] == args;
    while i < |params|
      invariant k <= |args| && Fits(params, i, args[k..])
      invariant data == head + body
      invariant Pack(params, 0, args) == Before(body, fds, Pack(params, i, args[k..]))
      decreases |params| - i
    {
      ghost var rest := args[k..];
      if params[i] == ARRAY {
        if i + 1 >= |params| { return Packed.Thrown; }
        if !KnownElem(params[i + 1]) { return BadArray; }
        assert rest[0] == args[k] && rest[1..] == args[k + 1..];
        var bytes, more := MarshalArray(params[i + 1], args[k]);
        BeforeTwice(body, fds, bytes, more, Pack(params, i + 2, args[k + 1..]));
        data, body, fds := data + bytes, body + bytes, fds + more;
        i, k := i + 2, k + 1;
      } else if IsSent(params[i]) || params[i] == VARCHAR || params[i] == FD {
        assert rest[0] == args[k] && rest[1..] == args[k + 1..];
        var bytes, more := MarshalPlain(params[i], args[k]);
        BeforeTwice(body, fds, bytes, more, Pack(params, i + 1, args[k + 1..]));
        data, body, fds := data + bytes, body + bytes, fds + more;
        i, k := i + 1, k + 1;
      } else {
        i := i + 1;
      }
    }
    assert body + [] == body && fds + [] == fds;
    r := Bytes(data + [END], fds);
  }

  lemma BeforeNothing(p: Packed)
    ensures Before([], [], p) == p
  {
    if p.Bytes? { assert [] + p.data == p.data && [] + p.fds == p.fds; }
  }

  method MarshalPlain(magic: byte, arg: CallArg) returns (data: seq<byte>, fds: seq<int>)
    requires IsSent(magic) || magic == VARCHAR || magic == FD
    requires IsSent(magic) ==> arg.WordArg?
    requires magic == VARCHAR ==> arg.TextArg? && CString(arg.chars)
    requires magic == FD ==> arg.FdArg?
    ensures IsSent(magic) ==> data == [magic] + Le32(arg.word) && fds == []
    ensures magic == VARCHAR ==> data == [VARCHAR] + (SpellLow(|arg.chars|) + arg.chars) && fds == []
    ensures magic == FD ==> data == [FD] && fds == [arg.fd]
  {
    data, fds := [magic], [];
    if magic == VARCHAR {
      var len := EncodeLength(|arg.chars|);
      data := data + len;
      data := data + arg.chars;
      assert [VARCHAR] + len + arg.chars == [VARCHAR] + (len + arg.chars);
    } else if magic == FD {
      fds := [arg.fd];
    } else {
      data := data + Le32(arg.word);
    }
  }

  // ---- the arguments as the grammar sees them -------------------------------------------

  /** A parameter list as the protocol generator emits it. */
  predicate Known(params: seq<byte>, i: nat)
    decreases |params| - i
  {
    if i >= |params| then true
    else if params[i] == ARRAY then i + 1 < |params| && KnownElem(params[i + 1]) && Known(params, i + 2)
    else (IsSent(params[i]) || params[i] == VARCHAR || params[i] == FD) && Known(params, i + 1)
  }

  /** All lengths stay below 2^28, the largest count the encoder can spell. */
  predicate Short(a: CallArg) {
    match a
    case TextArg(chars) => |chars| < LIMIT
    case WordsArg(words) => |words| < LIMIT
    case TextsArg(strings) => |strings| < LIMIT && forall s :: s in strings ==> |s| < LIMIT
    case FdsArg(fds) => |fds| < LIMIT
    case _ => true
  }

  function Counted(s: seq<byte>): Text { Text(MinWidth(|s|), s) }

  function CountedAll(strings: seq<seq<byte>>): (r: seq<Text>)
    ensures |r| == |strings|
  {
    if strings == [] then [] else [Counted(strings[0])] + CountedAll(strings[1..])
  }

  /** The argument of the grammar a call argument becomes under a parameter. */
  function WireArray(elem: byte, a: CallArg): Arg
    requires FitsArray(elem, a)
  {
    if IsSent(elem) then WordArray(elem, MinWidth(|a.words|), a.words)
    else if elem == VARCHAR then TextArray(MinWidth(|a.strings|), CountedAll(a.strings))
    else FdArray(MinWidth(|a.fds|), |a.fds|)
  }

  function Wire(params: seq<byte>, i: nat, args: seq<CallArg>): seq<Arg>
    requires Known(params, i) && Fits(params, i, args)
    decreases |params| - i
  {
    if i >= |params| then []
    else if params[i] == ARRAY then [WireArray(params[i + 1], args[0])] + Wire(params, i + 2, args[1..])
    else if params[i] == VARCHAR then [Varchar(Counted(args[0].chars))] + Wire(params, i + 1, args[1..])
    else if params[i] == FD then [Fd] + Wire(params, i + 1, args[1..])
    else [Word(params[i], args[0].word)] + Wire(params, i + 1, args[1..])
  }

  /** What the caller passed, as the listener's parameters. */
  function ExpectedArray(elem: byte, a: CallArg): seq<Value>
    requires FitsArray(elem, a)
  {
    if IsSent(elem) then [Words(elem, a.words), Length(|a.words|)]
    else if elem == VARCHAR then [CStrs(a.strings), Length(|a.strings|)]
    else [Fds(a.fds), Length(|a.fds|)]
  }

  function Expected(params: seq<byte>, i: nat, args: seq<CallArg>): seq<Value>
    requires Known(params, i) && Fits(params, i, args)
    decreases |params| - i
  {
    if i >= |params| then []
    else if params[i] == ARRAY then ExpectedArray(params[i + 1], args[0]) + Expected(params, i + 2, args[1..])
    else if params[i] == VARCHAR then [CStr(args[0].chars)] + Expected(params, i + 1, args[1..])
    else if params[i] == FD then [FileDescriptor(args[0].fd)] + Expected(params, i + 1, args[1..])
    else [U32(params[i], args[0].word)] + Expected(params, i + 1, args[1..])
  }

  function AllSends(args: seq<CallArg>): seq<int> {
    if args == [] then [] else Sends(args[0]) + AllSends(args[1..])
  }

  // ---- packing spells the wire arguments ------------------------------------------------

  lemma SpellShort(n: nat)
    requires n < LIMIT
    ensures ValidCount(n, MinWidth(n)) && SpellLow(n) == Spell(n, MinWidth(n))
  {
    hide Spell, Capacity, MinWidth;
    MinWidthInLimit(n);
    assert n % LIMIT == n;
  }

  lemma CountedIsValid(s: seq<byte>)
    requires |s| < LIMIT
    ensures ValidText(Counted(s)) && TextBytes(Counted(s)) == SpellLow(|s|) + s
  {
    SpellShort(|s|);
  }

  lemma {:induction false} CountedAllIsValid(strings: seq<seq<byte>>)
    requires forall s :: s in strings ==> |s| < LIMIT
    ensures forall t :: t in CountedAll(strings) ==> ValidText(t)
    ensures TextsBytes(CountedAll(strings)) == PackTexts(strings)
    decreases |strings|
  {
    hide TextBytes, SpellLow, ValidText;
    if strings != [] {
      CountedIsValid(strings[0]);
      CountedAllIsValid(strings[1..]);
      assert CountedAll(strings)[1..] == CountedAll(strings[1..]);
    }
  }

  lemma ArrayIsPacked(elem: byte, a: CallArg)
    requires KnownElem(elem) && FitsArray(elem, a) && Short(a)
    ensures ValidArg(WireArray(elem, a)) && ArgBytes(WireArray(elem, a)) == PackArray(elem, a)
    ensures FdsOf(WireArray(elem, a)) == |Sends(a)|
  {
    hide SpellLow, Spell, ValidText, CString;
    if IsSent(elem) {
      SpellShort(|a.words|);
    } else if elem == VARCHAR {
      SpellShort(|a.strings|);
      CountedAllIsValid(a.strings);
    } else {
      SpellShort(|a.fds|);
    }
  }

  lemma PlainIsPacked(magic: byte, a: CallArg, w: Arg, bytes: seq<byte>)
    requires Short(a)
    requires || (IsSent(magic) && a.WordArg? && w == Word(magic, a.word) && bytes == [magic] + Le32(a.word))
             || (magic == VARCHAR && a.TextArg? && w == Varchar(Counted(a.chars))
                 && bytes == [VARCHAR] + (SpellLow(|a.chars|) + a.chars))
             || (magic == FD && a.FdArg? && w == Fd && bytes == [FD])
    ensures ValidArg(w) && ArgBytes(w) == bytes && FdsOf(w) == |Sends(a)|
  {
    hide SpellLow, Spell, Le32;
    if magic == VARCHAR { CountedIsValid(a.chars); }
  }

  lemma Cons(a: Arg, rest: seq<Arg>)
    ensures ([a] + rest)[0] == a && ([a] + rest)[1..] == rest
    ensures ValidArg(a) && ValidArgs(rest) ==>
              ValidArgs([a] + rest) && ArgsBytes([a] + rest) == ArgBytes(a) + ArgsBytes(rest)
    ensures FdTotal([a] + rest) == FdsOf(a) + FdTotal(rest)
  {
    hide ArgBytes, ValidArg;
    assert ([a] + rest)[1..] == rest;
  }

  lemma {:induction false} PackIsWire(params: seq<byte>, i: nat, args: seq<CallArg>)
    requires Known(params, i) && Fits(params, i, args) && forall a :: a in args ==> Short(a)
    ensures ValidArgs(Wire(params, i, args))
    ensures Pack(params, i, args) == Bytes(ArgsBytes(Wire(params, i, args)), AllSends(args))
    ensures FdTotal(Wire(params, i, args)) == |AllSends(args)|
    decreases |params| - i
  {
    hide ArgBytes, ArgsBytes, ValidArg, SpellLow, Le32, CString, FitsArray, PackArray, WireArray, Short, Sends,
          FdTotal, FdsOf;
    if i < |params| {
      var a := args[0];
      var next := if params[i] == ARRAY then i + 2 else i + 1;
      PackIsWire(params, next, args[1..]);
      var rest := Wire(params, next, args[1..]);
      if params[i] == ARRAY {
        ArrayIsPacked(params[i + 1], a);
        Cons(WireArray(params[i + 1], a), rest);
      } else {
        var w := Wire(params, i, args)[0];
        var bytes := if params[i] == VARCHAR then [VARCHAR] + (SpellLow(|a.chars|) + a.chars)
                     else if params[i] == FD then [FD] else [params[i]] + Le32(a.word);
        PlainIsPacked(params[i], a, w, bytes);
        SendsPlain(a);
        Cons(w, rest);
      }
    } else {
      NothingPacked();
    }
  }

  lemma SendsPlain(a: CallArg)
    ensures a.FdArg? ==> Sends(a) == [a.fd]
    ensures a.WordArg? || a.TextArg? ==> Sends(a) == []
  {}

  lemma NothingPacked()
    ensures ArgsBytes([]) == [] && FdTotal([]) == 0 && ValidArgs([])
  {}

  // ---- the values that arrive -----------------------------------------------------------

  lemma {:induction false} StringsArrive(strings: seq<seq<byte>>)
    requires forall s :: s in strings ==> 0 !in s
    ensures UpToNuls(CountedAll(strings)) == strings
    decreases |strings|
  {
    hide UpToNul;
    if strings != [] {
      NulFree(strings[0]);
      StringsArrive(strings[1..]);
      assert CountedAll(strings)[1..] == CountedAll(strings[1..]);
      assert strings == [strings[0]] + strings[1..];
    }
  }

  lemma ArrayArrives(elem: byte, a: CallArg, more: seq<int>)
    requires KnownElem(elem) && FitsArray(elem, a)
    ensures FdsOf(WireArray(elem, a)) == |Sends(a)|
    ensures ArgValues(WireArray(elem, a), Sends(a) + more) == ExpectedArray(elem, a)
  {
    if elem == VARCHAR {
      StringsArrive(a.strings);
    } else if elem == FD {
      assert (a.fds + more)[..|a.fds|] == a.fds;
    }
  }

  lemma ValuesCons(w: Arg, rest: seq<Arg>, head: seq<int>, tail: seq<int>)
    requires FdsOf(w) == |head| && FdTotal(rest) <= |tail|
    ensures FdTotal([w] + rest) <= |head + tail|
    ensures ArgsValues([w] + rest, head + tail) == ArgValues(w, head + tail) + ArgsValues(rest, tail)
  {
    hide ArgValues, FdsOf;
    assert ([w] + rest)[1..] == rest;
    assert (head + tail)[|head|..] == tail;
  }

  /** The listener is given exactly what the caller passed, descriptors in order. */
  lemma {:induction false} ValuesArrive(params: seq<byte>, i: nat, args: seq<CallArg>, more: seq<int>)
    requires Known(params, i) && Fits(params, i, args)
    ensures FdTotal(Wire(params, i, args)) == |AllSends(args)|
    ensures ArgsValues(Wire(params, i, args), AllSends(args) + more) == Expected(params, i, args)
    decreases |params| - i
  {
    hide CString, FitsArray, WireArray, ExpectedArray, ArgValues, ArgsValues, FdTotal, FdsOf, Counted, Sends;
    if i < |params| {
      var a := args[0];
      var next := if params[i] == ARRAY then i + 2 else i + 1;
      var w := if params[i] == ARRAY then WireArray(params[i + 1], a)
               else if params[i] == VARCHAR then Varchar(Counted(a.chars))
               else if params[i] == FD then Fd else Word(params[i], a.word);
      var rest := Wire(params, next, args[1..]);
      ValuesArrive(params, next, args[1..], more);
      Cons(w, rest);
      var tail := AllSends(args[1..]) + more;
      assert AllSends(args) + more == Sends(a) + tail;
      if params[i] == ARRAY {
        ArrayArrives(params[i + 1], a, tail);
      } else {
        PlainArrives(params[i], a, w, tail);
      }
      ValuesCons(w, rest, Sends(a), tail);
    } else {
      NothingPacked();
      NothingArrives(AllSends(args) + more);
    }
  }

  lemma NothingArrives(fds: seq<int>)
    ensures FdTotal([]) == 0 && ArgsValues([], fds) == []
  {}

  lemma PlainArrives(magic: byte, a: CallArg, w: Arg, more: seq<int>)
    requires || (IsSent(magic) && a.WordArg? && w == Word(magic, a.word))
             || (magic == VARCHAR && a.TextArg? && CString(a.chars) && w == Varchar(Counted(a.chars)))
             || (magic == FD && a.FdArg? && w == Fd)
    ensures FdsOf(w) == |Sends(a)|
    ensures magic == VARCHAR ==> ArgValues(w, Sends(a) + more) == [CStr(a.chars)]
    ensures magic == FD ==> ArgValues(w, Sends(a) + more) == [FileDescriptor(a.fd)]
    ensures IsSent(magic) ==> ArgValues(w, Sends(a) + more) == [U32(magic, a.word)]
  {
    if magic == VARCHAR { NulFree(a.chars); }
  }

  /** What was marshalled for a parameter list passes the check of that list, with nothing left over. */
  lemma {:induction false} WireChecks(params: seq<byte>, i: nat, args: seq<CallArg>)
    requires Known(params, i) && Fits(params, i, args)
    ensures CheckFrom(params, i, Wire(params, i, args)).Pass?
    ensures |CheckFrom(params, i, Wire(params, i, args)).types| == |Expected(params, i, args)|
    decreases |params| - i
  {
    hide CString, FfiTypeFrom, Counted;
    if i < |params| {
      var next := if params[i] == ARRAY then i + 2 else i + 1;
      WireChecks(params, next, args[1..]);
      var w := Wire(params, i, args)[0];
      assert Wire(params, i, args)[1..] == Wire(params, next, args[1..]);
    }
  }
}
