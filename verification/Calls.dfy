/**
  The three walks over a frame put together: whatever the scanner accepts and the type check
  passes is demarshalled value by value, and what one party marshals the other one's listener gets.
 */
module Calls {
  import opened Bytes
  import opened VarInt
  import opened WireFormat
  import opened Scanner
  import opened Demarshal
  import opened Marshal
  import opened Spec

  // ---- agreement of the three walks -----------------------------------------------------

  lemma NoEndBehind(params: seq<byte>, i: nat, n: nat)
    requires i < |params| && i + n <= |params| && END !in params[i..]
    ensures params[i] != END && END !in params[i + n..]
  {
    assert params[i] in params[i..];
    assert params[i + n..] == params[i..][n..];
  }

  /** The foreign types are met by the first of the values. */
  predicate Met(types: seq<FfiType>, values: seq<Value>) {
    |types| <= |values| && forall k :: 0 <= k < |types| ==> types[k] == TypeOf(values[k])
  }

  lemma MetInParts(first: seq<FfiType>, types: seq<FfiType>, values: seq<Value>, rest: seq<Value>)
    requires |first| == |values| && Met(first, values) && Met(types, rest)
    ensures Met(first + types, values + rest)
  {}

  lemma FirstValues(args: seq<Arg>, fds: seq<int>)
    requires args != [] && FdTotal(args) <= |fds|
    ensures FdsOf(args[0]) <= |fds| && FdTotal(args[1..]) <= |fds[FdsOf(args[0])..]|
    ensures ArgsValues(args, fds) == ArgValues(args[0], fds) + ArgsValues(args[1..], fds[FdsOf(args[0])..])
  {
    hide ArgValues, FdsOf;
  }

  /** Every foreign type the check lists is met by the value at its place. */
  lemma {:induction false} CheckedValuesFit(params: seq<byte>, i: nat, args: seq<Arg>, fds: seq<int>)
    requires ValidArgs(args) && FdTotal(args) <= |fds|
    requires i <= |params| && END !in params[i..] && CheckFrom(params, i, args).Pass?
    ensures Met(CheckFrom(params, i, args).types, ArgsValues(args, fds))
    decreases |params| - i
  {
    hide FfiTypeFrom, TypeOf, Met, ValidArg, FdTotal, FdsOf, ArgValues, ArgsValues;
    if i < |params| {
      NoEndBehind(params, i, 0);
      NextMagicOfNone();
      var n := if params[i] == ARRAY then 2 else 1;
      NoEndBehind(params, i, n);
      FirstValues(args, fds);
      FirstValueFits(args[0], fds);
      CheckedValuesFit(params, i + n, args[1..], fds[FdsOf(args[0])..]);
      var first := if params[i] == ARRAY then [Pointer, UInt32] else [FfiTypeFrom(params[i])];
      MetInParts(first, CheckFrom(params, i + n, args[1..]).types, ArgValues(args[0], fds),
          ArgsValues(args[1..], fds[FdsOf(args[0])..]));
    } else {
      assert Met([], ArgsValues(args, fds)) by { NothingToMeet(ArgsValues(args, fds)); }
    }
  }

  lemma NothingToMeet(values: seq<Value>)
    ensures Met([], values)
  {}

  lemma NextMagicOfNone()
    ensures NextMagic([]) == END
  {}

  lemma FirstValueFits(a: Arg, fds: seq<int>)
    requires ValidArg(a) && FdsOf(a) <= |fds|
    ensures var v := ArgValues(a, fds);
            var types := if Magic(a) == ARRAY then [Pointer, UInt32] else [FfiTypeFrom(Magic(a))];
            |v| == |types| && Met(types, v)
  {}

  /** The parameter octets an argument list would answer to exactly. */
  function TypeBytes(args: seq<Arg>): seq<byte> {
    if args == [] then []
    else Step(args[0]) + TypeBytes(args[1..])
  }

  function Step(a: Arg): seq<byte> { if Magic(a) == ARRAY then [ARRAY, Elem(a)] else [Magic(a)] }

  lemma TypeBytesStep(args: seq<Arg>, n: nat)
    requires 0 < n <= |args|
    ensures TypeBytes(args[..n]) == Step(args[0]) + TypeBytes(args[1..][..n - 1])
  {
    assert args[..n][0] == args[0] && args[..n][1..] == args[1..][..n - 1];
  }

  lemma {:induction false} PassDescribes(params: seq<byte>, i: nat, args: seq<Arg>) returns (n: nat)
    requires i <= |params| && END !in params[i..] && CheckFrom(params, i, args).Pass?
    ensures n <= |args| && params[i..] == TypeBytes(args[..n])
    decreases |params| - i
  {
    hide FfiTypeFrom, Elem;
    n := 0;
    if i < |params| {
      assert params[i] in params[i..];
      NextMagicOfNone();
      var step := Step(args[0]);
      assert params[i + |step|..] == params[i..][|step|..];
      n := PassDescribes(params, i + |step|, args[1..]);
      n := n + 1;
      TypeBytesStep(args, n);
      assert params[i..] == step + params[i + |step|..];
    }
  }

  lemma {:induction false} DescribedPasses(params: seq<byte>, i: nat, args: seq<Arg>, n: nat)
    requires i <= |params| && END !in params[i..] && n <= |args| && params[i..] == TypeBytes(args[..n])
    ensures CheckFrom(params, i, args).Pass?
    decreases |params| - i
  {
    hide FfiTypeFrom, Elem;
    if n == 0 { assert args[..n] == []; }
    if i < |params| {
      assert params[i] in params[i..];
      TypeBytesStep(args, n);
      var step, rest := Step(args[0]), TypeBytes(args[1..][..n - 1]);
      assert params[i..][0] == params[i] && (step + rest)[0] == step[0];
      if |step| == 2 { assert params[i..][1] == params[i + 1] && (step + rest)[1] == step[1]; }
      assert params[i + |step|..] == params[i..][|step|..] && (step + rest)[|step|..] == rest;
      DescribedPasses(params, i + |step|, args[1..], n - 1);
    }
  }

  /** The check passes exactly when the parameters describe some first arguments of the list. */
  lemma CheckPassesOnPrefix(params: seq<byte>, args: seq<Arg>)
    requires END !in params
    ensures CheckFrom(params, 0, args).Pass? <==> exists n :: 0 <= n <= |args| && params == TypeBytes(args[..n])
  {
    assert params[0..] == params;
    if CheckFrom(params, 0, args).Pass? {
      var n := PassDescribes(params, 0, args);
    }
    if n :| 0 <= n <= |args| && params == TypeBytes(args[..n]) {
      DescribedPasses(params, 0, args, n);
    }
  }

  lemma StartsOne(args: seq<Arg>, from: nat)
    requires ValidArgs(args) && args != []
    ensures ValidArgs(args[1..])
    ensures Starts(args, from) == [from] + Starts(args[1..], from + |ArgBytes(args[0])|)
  {
    hide ArgBytes, ValidArg;
  }

  lemma {:induction false} StartsMove(args: seq<Arg>, from: nat, k: nat)
    requires ValidArgs(args) && k < |args|
    ensures Starts(args, from)[k] == from + Starts(args, 0)[k]
    decreases |args|
  {
    hide ArgBytes, Starts;
    StartsOne(args, from);
    StartsOne(args, 0);
    if k > 0 {
      StartsMove(args[1..], from + |ArgBytes(args[0])|, k - 1);
      StartsMove(args[1..], |ArgBytes(args[0])|, k - 1);
    }
  }

  /**
    For every buffer: if the scanner accepts a frame and the type check passes its arguments, then
    the span it hands on reads as the same arguments up to its last octet, scanner, checker and
    demarshaller look for arguments at the same places, and the values that come out begin with one
    for each foreign type: a float for a float, a signed word or a descriptor for a signed word, an
    unsigned word or a length for an unsigned one, and something that has an address for a pointer.
   */
  lemma ThreeWalkAgreement(data: seq<byte>, off: nat, fds: seq<int>, params: seq<byte>)
    requires ReadGeneric(data, off).Some? && FdTotal(ReadGeneric(data, off).value.args) <= |fds|
    requires END !in params && CheckFrom(params, 0, ReadGeneric(data, off).value.args).Pass?
    ensures var g := ReadGeneric(data, off).value;
            && off + 12 <= g.next <= |data| && data[g.next - 1] == END && ValidArgs(g.args)
            && (var span := data[off + 11..g.next];
                ReadArgs(span, 0) == Some(ArgsEnd(g.args, |span|)))
            && (forall k :: 0 <= k < |g.args| ==> Starts(g.args, off + 11)[k] == off + 11 + Starts(g.args, 0)[k])
            && (var types, values := CheckFrom(params, 0, g.args).types, ArgsValues(g.args, fds[..FdTotal(g.args)]);
                && |types| <= |values|
                && forall k :: 0 <= k < |types| ==>
                     && types[k] != NoType
                     && (types[k] == Float <==> values[k].U32? && values[k].kind == F32)
                     && (types[k] == SInt32 <==> values[k].FileDescriptor? || (values[k].U32? && values[k].kind == INT))
                     && (types[k] == UInt32 <==>
                         values[k].Length? || (values[k].U32? && values[k].kind != F32 && values[k].kind != INT)))
  {
    hide ReadArg, CheckFrom, ArgsValues, WordAt, Starts;
    SpanOfFrame(data, off);
    var g := ReadGeneric(data, off).value;
    CheckedValuesFit(params, 0, g.args, fds[..FdTotal(g.args)]);
    forall k | 0 <= k < |g.args| ensures Starts(g.args, off + 11)[k] == off + 11 + Starts(g.args, 0)[k] {
      StartsMove(g.args, off + 11, k);
    }
  }

  /** The span behind the header reads as the frame's arguments, wherever it is put. */
  lemma SpanOfFrame(data: seq<byte>, off: nat)
    requires ReadGeneric(data, off).Some?
    ensures var g := ReadGeneric(data, off).value;
            && off + 12 <= g.next <= |data| && data[g.next - 1] == END && ValidArgs(g.args)
            && ReadArgs(data[off + 11..g.next], 0) == Some(ArgsEnd(g.args, g.next - off - 11))
  {
    hide ReadGeneric, ReadArgs, WordAt, At, ArgsBytes, ValidArgs;
    HeaderOfGeneric(data, off);
    ReadInside(data, off + 11);
    ReadArgsAreThere(data, off + 11);
    var g := ReadGeneric(data, off).value;
    var span := data[off + 11..g.next];
    AtSlice(span, 0, span);
    ReadArgsMoves(data, off + 11, span, 0);
  }

  // ---- IWireObject::called ---------------------------------------------------------------

  datatype CallResult =
    | NoSuchMethod
    | NotListened
    | TooNew
    | WrongTypes
    | Escaped               // the std::out_of_range of a parameter list that ends in ARRAY
    | Delivered(values: seq<Value>)

  function Params(m: Method): seq<byte> {
    if m.returnsType == [] then m.params else [SEQ] + m.params
  }

  predicate Listened(listeners: seq<bool>, id: nat) { id < |listeners| && listeners[id] }

  /** What `called` does with the arguments of a frame. */
  function CallOf(methods: seq<Method>, listeners: seq<bool>, version: nat, id: nat, args: seq<Arg>,
          fds: seq<int>): CallResult
    requires FdTotal(args) <= |fds|
  {
    if id >= |methods| then NoSuchMethod
    else if !Listened(listeners, id) then NotListened
    else if methods[id].since > version then TooNew
    else
      match CheckFrom(Params(methods[id]), 0, args)
      case Mismatch => WrongTypes
      case Thrown => Escaped
      case Pass(types) =>
        var values := [Self] + ArgsValues(args, fds);
        if |types| + 1 <= |values| then Delivered(values[..|types| + 1]) else Delivered(values)
  }

  method Called(methods: seq<Method>, listeners: seq<bool>, version: nat, id: nat, data: seq<byte>, fds: seq<int>,
          ghost args: seq<Arg>)
    returns (r: CallResult)
    requires forall m :: m in methods ==> END !in m.params
    requires ReadArgs(data, 0) == Some(ArgsEnd(args, |data|)) && ValidArgs(args) && FdTotal(args) <= |fds|
    ensures r == CallOf(methods, listeners, version, id, args, fds)
    ensures r.Delivered? ==> forall k :: 1 <= k < |r.values| ==> r.values[k] != Self
  {
    hide ReadArgs, CheckFrom, ArgsValues, FdTotal, ValidArgs;
    if |methods| <= id { return NoSuchMethod; }
    if |listeners| <= id || !listeners[id] { return NotListened; }
    var m := methods[id];
    var params := Params(m);
    if m.since > version { return TooNew; }
    ghost var stops, stops';
    var check;
    check, stops := TypeCheck(params, data, args);
    match check {
      case Mismatch => return WrongTypes;
      case Thrown => return Escaped;
      case Pass(types) =>
        var avalues;
        avalues, stops' := DemarshalArgs(data, fds, args);
        assert m in methods;
        assert END !in params;
        assert params[0..] == params;
        CheckedValuesFit(params, 0, args, fds);
        NoSelf(args, fds);
        r := Delivered(avalues[..|types| + 1]);
    }
  }

  // what becomes of a call, told from the frame and the method's description

  lemma PrefixTotal(args: seq<Arg>, n: nat)
    requires n <= |args|
    ensures FdTotal(args[..n]) <= FdTotal(args)
    decreases n
  {
    hide FdsOf;
    if n > 0 {
      PrefixTotal(args[1..], n - 1);
      assert args[..n][0] == args[0] && args[..n][1..] == args[1..][..n - 1];
    }
  }

  lemma NumberOfValues(a: Arg, fds: seq<int>)
    requires ValidArg(a) && FdsOf(a) <= |fds|
    ensures |ArgValues(a, fds)| == if Magic(a) == ARRAY then 2 else 1
  {}

  /** The foreign types are as many as the values of the arguments the parameters describe. */
  lemma {:induction false} DescribedValues(params: seq<byte>, i: nat, args: seq<Arg>, n: nat, fds: seq<int>)
    requires ValidArgs(args) && i <= |params| && END !in params[i..]
    requires n <= |args| && params[i..] == TypeBytes(args[..n])
    requires FdTotal(args) <= |fds| && FdTotal(args[..n]) <= |fds| && CheckFrom(params, i, args).Pass?
    ensures |CheckFrom(params, i, args).types| == |ArgsValues(args[..n], fds)|
    ensures ArgsValues(args[..n], fds) <= ArgsValues(args, fds)
    decreases n
  {
    hide FfiTypeFrom, Elem, ArgValues, FdsOf, ArgsValues, FdTotal, ValidArg;
    if n == 0 {
      NoValues(fds);
      assert args[..n] == [];
    } else {
      var first := args[0];
      TypeBytesStep(args, n);
      assert args[..n][0] == first && args[..n][1..] == args[1..][..n - 1];
      var step, rest := Step(first), TypeBytes(args[1..][..n - 1]);
      NoEndBehind(params, i, 0);
      assert params[i..][0] == params[i] && (step + rest)[0] == step[0];
      assert params[i + |step|..] == params[i..][|step|..] && (step + rest)[|step|..] == rest;
      NoEndBehind(params, i, |step|);
      FirstValues(args, fds);
      FirstValues(args[..n], fds);
      NumberOfValues(first, fds);
      DescribedValues(params, i + |step|, args[1..], n - 1, fds[FdsOf(first)..]);
    }
  }

  lemma NoValues(fds: seq<int>)
    ensures ArgsValues([], fds) == []
  {}

  /** The parameters describe the first `n` arguments and break off inside of an array that follows. */
  predicate BreaksOff(params: seq<byte>, args: seq<Arg>, n: nat) {
    n < |args| && Magic(args[n]) == ARRAY && params == TypeBytes(args[..n]) + [ARRAY]
  }

  lemma {:induction false} ThrownBreaksOff(params: seq<byte>, i: nat, args: seq<Arg>) returns (n: nat)
    requires i <= |params| && END !in params[i..] && CheckFrom(params, i, args).Thrown?
    ensures BreaksOff(params[i..], args, n)
    decreases |params| - i
  {
    hide FfiTypeFrom, Elem;
    NoEndBehind(params, i, 0);
    NextMagicOfNone();
    if params[i] == ARRAY && i + 1 >= |params| {
      n := 0;
      assert args[..0] == [] && params[i..] == [ARRAY];
    } else {
      var step := Step(args[0]);
      NoEndBehind(params, i, |step|);
      assert params[i + |step|..] == params[i..][|step|..];
      n := ThrownBreaksOff(params, i + |step|, args[1..]);
      assert args[1..][n] == args[n + 1];
      n := n + 1;
      TypeBytesStep(args, n);
      assert params[i..] == step + params[i + |step|..];
    }
  }

  lemma StepAhead(params: seq<byte>, i: nat, step: seq<byte>, rest: seq<byte>)
    requires i <= |params| && params[i..] == step + rest
    ensures i + |step| <= |params| && params[i + |step|..] == rest
    ensures forall k :: 0 <= k < |step| ==> params[i + k] == step[k]
  {
    forall k | 0 <= k < |step| ensures params[i + k] == step[k] { assert params[i..][k] == (step + rest)[k]; }
    assert params[i + |step|..] == params[i..][|step|..] && (step + rest)[|step|..] == rest;
  }

  lemma {:induction false} BrokenOffThrows(params: seq<byte>, i: nat, args: seq<Arg>, n: nat)
    requires i <= |params| && END !in params[i..] && BreaksOff(params[i..], args, n)
    ensures CheckFrom(params, i, args).Thrown?
    decreases |params| - i
  {
    hide FfiTypeFrom, Elem, TypeBytes, Magic;
    NoEndBehind(params, i, 0);
    if n == 0 {
      NoTypeBytes();
      assert args[..n] == [] && params[i..] == [ARRAY];
      StepAhead(params, i, [ARRAY], []);
    } else {
      TypeBytesStep(args, n);
      var step, rest := Step(args[0]), TypeBytes(args[1..][..n - 1]) + [ARRAY];
      assert params[i..] == step + rest;
      StepAhead(params, i, step, rest);
      assert args[1..][n - 1] == args[n];
      NoEndBehind(params, i, |step|);
      BrokenOffThrows(params, i + |step|, args[1..], n - 1);
    }
  }

  lemma NoTypeBytes()
    ensures TypeBytes([]) == []
  {}

  /** The check throws exactly when the parameters break off inside of an array the caller has sent. */
  lemma CheckThrowsAtEnd(params: seq<byte>, args: seq<Arg>)
    requires END !in params
    ensures CheckFrom(params, 0, args).Thrown? <==> exists n :: BreaksOff(params, args, n)
  {
    hide BreaksOff;
    assert params[0..] == params;
    if CheckFrom(params, 0, args).Thrown? {
      var n := ThrownBreaksOff(params, 0, args);
    }
    if n :| BreaksOff(params, args, n) {
      BrokenOffThrows(params, 0, args, n);
    }
  }

  /**
    Every way a call can end, and when it does: no such method; nobody listens; the method is newer than
    the object; the parameters break off inside of an array; the arguments are not those declared; else
    the listener is called with the object and the values of the arguments declared, whatever comes
    behind them.
   */
  lemma CalledExactly(methods: seq<Method>, listeners: seq<bool>, version: nat, id: nat, args: seq<Arg>, fds: seq<int>)
    requires ValidArgs(args) && FdTotal(args) <= |fds| && forall m :: m in methods ==> END !in m.params
    ensures var r := CallOf(methods, listeners, version, id, args, fds);
            && (r.NoSuchMethod? <==> id >= |methods|)
            && (r.NotListened? <==> id < |methods| && (id >= |listeners| || !listeners[id]))
            && (r.TooNew? <==> id < |methods| && id < |listeners| && listeners[id] && methods[id].since > version)
            && (id < |methods| && id < |listeners| && listeners[id] && methods[id].since <= version ==>
                  (r.Delivered? <==> exists n :: 0 <= n <= |args| && Params(methods[id]) == TypeBytes(args[..n])))
            && (r.Delivered? ==> forall n :: 0 <= n <= |args| && Params(methods[id]) == TypeBytes(args[..n]) ==>
                  && FdTotal(args[..n]) <= |fds|
                  && r.values == [Self] + ArgsValues(args[..n], fds))
            && (id < |methods| && id < |listeners| && listeners[id] && methods[id].since <= version ==>
                  (r.Escaped? <==> exists n :: BreaksOff(Params(methods[id]), args, n)))
  {
    hide CheckFrom, ArgsValues, FdTotal, TypeBytes, BreaksOff;
    if id < |methods| && Listened(listeners, id) && methods[id].since <= version {
      var m := methods[id];
      var params := Params(m);
      assert m in methods;
      assert END !in params && params[0..] == params;
      CheckPassesOnPrefix(params, args);
      CheckThrowsAtEnd(params, args);
      forall n | 0 <= n <= |args| && params == TypeBytes(args[..n])
        ensures FdTotal(args[..n]) <= |fds|
        ensures CallOf(methods, listeners, version, id, args, fds) == Delivered([Self] + ArgsValues(args[..n], fds))
      {
        PrefixTotal(args, n);
        DescribedValues(params, 0, args, n, fds);
        var some, all := ArgsValues(args[..n], fds), ArgsValues(args, fds);
        assert ([Self] + all)[..|some| + 1] == [Self] + some;
      }
    }
  }

  lemma {:induction false} NoSelf(args: seq<Arg>, fds: seq<int>)
    requires FdTotal(args) <= |fds|
    ensures Self !in ArgsValues(args, fds)
    decreases |args|
  {
    hide ArgValues, FdsOf;
    if args != [] {
      ArgIsNotSelf(args[0], fds);
      NoSelf(args[1..], fds[FdsOf(args[0])..]);
    }
  }

  lemma ArgIsNotSelf(a: Arg, fds: seq<int>)
    requires FdsOf(a) <= |fds|
    ensures Self !in ArgValues(a, fds)
  {}

  // ---- end to end -------------------------------------------------------------------------

  function SeqArgs(returnSeq: Option<u32>): seq<Arg> {
    match returnSeq case None => [] case Some(s) => [Word(SEQ, s)]
  }

  function SeqValues(returnSeq: Option<u32>): seq<Value> {
    match returnSeq case None => [] case Some(s) => [U32(SEQ, s)]
  }

  /** The grammar's arguments of a call, and the parameters and values that go with them. */
  function CallArgs(m: Method, returnSeq: Option<u32>, args: seq<CallArg>): seq<Arg>
    requires Known(m.params, 0) && Fits(m.params, 0, args)
  {
    SeqArgs(returnSeq) + Wire(m.params, 0, args)
  }

  function CallValues(m: Method, returnSeq: Option<u32>, args: seq<CallArg>): seq<Value>
    requires Known(m.params, 0) && Fits(m.params, 0, args)
  {
    SeqValues(returnSeq) + Expected(m.params, 0, args)
  }

  predicate AllShort(args: seq<CallArg>) { forall a :: a in args ==> Short(a) }

  /** The octets `call` produces, frame code to END. */
  function CallBytes(objectId: u32, methodId: u32, m: Method, returnSeq: Option<u32>, args: seq<CallArg>): seq<byte>
    requires Known(m.params, 0) && Fits(m.params, 0, args)
  {
    PackKnown(m.params, 0, args);
    Header(objectId, methodId) + SeqBytes(returnSeq) + Pack(m.params, 0, args).data + [END]
  }

  lemma {:induction false} PackKnown(params: seq<byte>, i: nat, args: seq<CallArg>)
    requires Known(params, i) && Fits(params, i, args)
    ensures Pack(params, i, args).Bytes? && Pack(params, i, args).fds == AllSends(args)
    decreases |params| - i
  {
    hide SpellLow, Le32, CString, FitsArray, PackArray, Sends;
    if i < |params| {
      PackKnown(params, if params[i] == ARRAY then i + 2 else i + 1, args[1..]);
      SendsPlain(args[0]);
      assert args == [args[0]] + args[1..];
    }
  }

  lemma PackWithSeq(m: Method, returnSeq: Option<u32>, args: seq<CallArg>)
    requires Known(m.params, 0) && Fits(m.params, 0, args) && AllShort(args)
    ensures Pack(m.params, 0, args).Bytes? && ValidArgs(CallArgs(m, returnSeq, args))
    ensures FdTotal(CallArgs(m, returnSeq, args)) == |AllSends(args)|
    ensures ArgsBytes(CallArgs(m, returnSeq, args)) == SeqBytes(returnSeq) + Pack(m.params, 0, args).data
  {
    hide Wire, Pack, ArgsBytes, FdTotal, FdsOf, Le32;
    PackIsWire(m.params, 0, args);
    var w := Wire(m.params, 0, args);
    match returnSeq {
      case None =>
        assert [] + w == w && SeqBytes(None) + ArgsBytes(w) == ArgsBytes(w);
      case Some(s) =>
        Cons(Word(SEQ, s), w);
        SeqWord(s);
    }
  }

  lemma SeqWord(s: u32)
    ensures ValidArg(Word(SEQ, s)) && ArgBytes(Word(SEQ, s)) == [SEQ] + Le32(s) && FdsOf(Word(SEQ, s)) == 0
  {}

  lemma GenericIsRead(data: seq<byte>, off: nat, objectId: u32, methodId: u32, args: seq<Arg>)
    requires ValidArgs(args) && At(data, off, Header(objectId, methodId) + ArgsBytes(args) + [END])
    ensures ReadGeneric(data, off) == Some(GenericEnd(objectId, methodId, args, off + 12 + |ArgsBytes(args)|))
  {
    hide ArgsBytes, ReadGeneric, ReadArgs, At, Le32, WordAt;
    var body := ArgsBytes(args) + [END];
    assert Header(objectId, methodId) + ArgsBytes(args) + [END] == Header(objectId, methodId) + body;
    AtSplit(data, off, Header(objectId, methodId), body);
    HeaderIsRead(data, off, objectId, methodId);
    ArgsAreRead(data, off + 11, args);
    HeaderOfGeneric(data, off);
  }

  lemma HeaderIsRead(data: seq<byte>, off: nat, objectId: u32, methodId: u32)
    requires At(data, off, Header(objectId, methodId))
    ensures HasHeader(data, off) && WordAt(data, off + 2) == objectId && WordAt(data, off + 7) == methodId
  {
    hide At, Le32, WordAt;
    AtSplit(data, off, [100, OBJECT] + Le32(objectId) + [UINT], Le32(methodId));
    AtSplit(data, off, [100, OBJECT] + Le32(objectId), [UINT]);
    AtSplit(data, off, [100, OBJECT], Le32(objectId));
    AtHead(data, off + 6, UINT);
    WordAtLe32(data, off + 2, objectId);
    WordAtLe32(data, off + 7, methodId);
    assert [100, OBJECT] == [100 as byte] + [OBJECT];
    AtSplit(data, off, [100], [OBJECT]);
    AtHead(data, off, 100);
    AtHead(data, off + 1, OBJECT);
    HeaderFits(data, off, objectId, methodId);
  }

  lemma HeaderFits(data: seq<byte>, off: nat, objectId: u32, methodId: u32)
    requires At(data, off, Header(objectId, methodId))
    ensures off + 11 <= |data|
  {}

  /**
    Marshalling end to end: the octets of a call, at any place of any buffer, with its descriptors
    at the head of any queue, are scanned as one frame that claims just those descriptors, pass the
    check of the method and come out as the caller's arguments, the return sequence first.
   */
  lemma CallArrives(data: seq<byte>, off: nat, more: seq<int>, objectId: u32, methodId: u32, m: Method,
          returnSeq: Option<u32>, args: seq<CallArg>)
    requires Known(m.params, 0) && Fits(m.params, 0, args) && AllShort(args)
    requires returnSeq.Some? <==> m.returnsType != []
    requires At(data, off, CallBytes(objectId, methodId, m, returnSeq, args))
    ensures ReadGeneric(data, off) ==
            Some(GenericEnd(objectId, methodId, CallArgs(m, returnSeq, args),
                            off + |CallBytes(objectId, methodId, m, returnSeq, args)|))
    ensures FdTotal(CallArgs(m, returnSeq, args)) == |AllSends(args)|
    ensures ArgsValues(CallArgs(m, returnSeq, args), AllSends(args) + more) == CallValues(m, returnSeq, args)
    ensures CheckFrom(Params(m), 0, CallArgs(m, returnSeq, args)).Pass?
    ensures |CheckFrom(Params(m), 0, CallArgs(m, returnSeq, args)).types| == |CallValues(m, returnSeq, args)|
  {
    hide ReadGeneric, Wire, ArgsBytes, Header, SeqBytes, Pack, ArgsValues, FdTotal, CheckFrom, Expected, At;
    PackKnown(m.params, 0, args);
    PackWithSeq(m, returnSeq, args);
    var wire := CallArgs(m, returnSeq, args);
    assert Header(objectId, methodId) + (SeqBytes(returnSeq) + Pack(m.params, 0, args).data) + [END]
        == CallBytes(objectId, methodId, m, returnSeq, args);
    GenericIsRead(data, off, objectId, methodId, wire);
    HeaderLength(objectId, methodId);
    ValuesArrive(m.params, 0, args, more);
    ValuesWithSeq(m, returnSeq, args, AllSends(args) + more);
    ChecksWithSeq(m, returnSeq, args);
  }

  lemma HeaderLength(objectId: u32, methodId: u32)
    ensures |Header(objectId, methodId)| == 11
  {}

  lemma ValuesWithSeq(m: Method, returnSeq: Option<u32>, args: seq<CallArg>, fds: seq<int>)
    requires Known(m.params, 0) && Fits(m.params, 0, args)
    requires FdTotal(Wire(m.params, 0, args)) <= |fds|
    requires ArgsValues(Wire(m.params, 0, args), fds) == Expected(m.params, 0, args)
    ensures FdTotal(CallArgs(m, returnSeq, args)) == FdTotal(Wire(m.params, 0, args))
    ensures ArgsValues(CallArgs(m, returnSeq, args), fds) == CallValues(m, returnSeq, args)
  {
    hide Wire, Expected, ArgsValues, FdTotal;
    var w := Wire(m.params, 0, args);
    match returnSeq {
      case None => assert [] + w == w && [] + Expected(m.params, 0, args) == Expected(m.params, 0, args);
      case Some(s) =>
        Cons(Word(SEQ, s), w);
        assert [] + fds == fds;
        ValuesCons(Word(SEQ, s), w, [], fds);
    }
  }

  lemma ChecksWithSeq(m: Method, returnSeq: Option<u32>, args: seq<CallArg>)
    requires Known(m.params, 0) && Fits(m.params, 0, args)
    requires returnSeq.Some? <==> m.returnsType != []
    ensures CheckFrom(Params(m), 0, CallArgs(m, returnSeq, args)).Pass?
    ensures |CheckFrom(Params(m), 0, CallArgs(m, returnSeq, args)).types| == |CallValues(m, returnSeq, args)|
  {
    hide Wire, Expected;
    var w := Wire(m.params, 0, args);
    WireChecks(m.params, 0, args);
    match returnSeq {
      case None => assert [] + w == w;
      case Some(s) =>
        CheckMoves([SEQ], m.params, 0, w);
        assert ([Word(SEQ, s)] + w)[1..] == w;
    }
  }

  lemma {:induction false} CheckMoves(front: seq<byte>, params: seq<byte>, i: nat, args: seq<Arg>)
    ensures CheckFrom(front + params, |front| + i, args) == CheckFrom(params, i, args)
    decreases |params| - i
  {
    hide FfiTypeFrom, Elem;
    if i < |params| {
      assert (front + params)[|front| + i] == params[i];
      if i + 1 < |params| { assert (front + params)[|front| + i + 1] == params[i + 1]; }
      CheckMoves(front, params, i + 2, args);
      if args != [] {
        CheckMoves(front, params, i + 2, args[1..]);
        CheckMoves(front, params, i + 1, args[1..]);
      } else {
        CheckMoves(front, params, i + 1, []);
      }
    }
  }

  /**
    What the listener at the other end is called with: the object itself and the caller's arguments,
    the return sequence first. Nothing else can happen to a call whose method the object has.
   */
  lemma CallIsDelivered(methods: seq<Method>, listeners: seq<bool>, version: nat, id: nat, returnSeq: Option<u32>,
          args: seq<CallArg>)
    requires id < |methods| && Listened(listeners, id) && methods[id].since <= version
    requires var m := methods[id];
             && Known(m.params, 0) && Fits(m.params, 0, args) && AllShort(args)
             && (returnSeq.Some? <==> m.returnsType != [])
    ensures FdTotal(CallArgs(methods[id], returnSeq, args)) == |AllSends(args)|
    ensures CallOf(methods, listeners, version, id, CallArgs(methods[id], returnSeq, args), AllSends(args)) ==
            Delivered([Self] + CallValues(methods[id], returnSeq, args))
  {
    hide CallArgs, CallValues, AllSends, FdTotal, CheckFrom, ArgsValues, Known, Fits, AllShort, CallBytes, ReadGeneric;
    var bytes := CallBytes(0, 0, methods[id], returnSeq, args);
    AtSelf(bytes);
    CallArrives(bytes, 0, [], 0, 0, methods[id], returnSeq, args);
    assert AllSends(args) + [] == AllSends(args);
    var values := [Self] + CallValues(methods[id], returnSeq, args);
    assert values[..|values|] == values;
  }

  // ---- exactly when the round trip succeeds -----------------------------------------------

  predicate Bounded(v: Value) {
    match v
    case CStr(chars) => |chars| < LIMIT
    case CStrs(strings) => forall s :: s in strings ==> |s| < LIMIT
    case Length(count) => count < LIMIT
    case _ => true
  }

  lemma {:induction false} NulOnlyShortens(s: seq<byte>)
    ensures |UpToNul(s)| <= |s|
  {
    if s != [] && s[0] != 0 { NulOnlyShortens(s[1..]); }
  }

  lemma {:induction false} NulsOnlyShorten(texts: seq<Text>)
    requires forall t :: t in texts ==> |t.chars| < LIMIT
    ensures forall s :: s in UpToNuls(texts) ==> |s| < LIMIT
    decreases |texts|
  {
    hide UpToNul;
    if texts != [] {
      NulOnlyShortens(texts[0].chars);
      NulsOnlyShorten(texts[1..]);
    }
  }

  lemma CountsAreBounded(value: nat, width: nat)
    requires ValidCount(value, width)
    ensures value < LIMIT
  {
    CapacityGrows(width, MAX_WIDTH);
    SpellGroups3(0);
  }

  lemma ArgIsBounded(a: Arg, fds: seq<int>)
    requires ValidArg(a) && FdsOf(a) <= |fds|
    ensures forall v :: v in ArgValues(a, fds) ==> Bounded(v)
  {
    hide Capacity, UpToNul, UpToNuls;
    match a {
      case Varchar(t) =>
        CountsAreBounded(|t.chars|, t.width);
        NulOnlyShortens(t.chars);
      case WordArray(_, width, words) => CountsAreBounded(|words|, width);
      case TextArray(width, texts) =>
        CountsAreBounded(|texts|, width);
        forall t | t in texts ensures |t.chars| < LIMIT { CountsAreBounded(|t.chars|, t.width); }
        NulsOnlyShorten(texts);
      case FdArray(width, count) => CountsAreBounded(count, width);
      case _ =>
    }
  }

  /** No value a frame can carry is longer than the counts allow. */
  lemma {:induction false} ValuesAreBounded(args: seq<Arg>, fds: seq<int>)
    requires ValidArgs(args) && FdTotal(args) <= |fds|
    ensures forall v :: v in ArgsValues(args, fds) ==> Bounded(v)
    decreases |args|
  {
    hide ValidArg, Bounded, FdsOf, ArgValues;
    if args != [] {
      ArgIsBounded(args[0], fds);
      ValuesAreBounded(args[1..], fds[FdsOf(args[0])..]);
    }
  }

  lemma {:induction false} BoundedIsShort(params: seq<byte>, i: nat, args: seq<CallArg>)
    requires Known(params, i) && Fits(params, i, args)
    requires forall v :: v in Expected(params, i, args) ==> Bounded(v)
    ensures AllShort(args)
    decreases |params| - i
  {
    hide CString, Short, ExpectedArray, FitsArray, Bounded;
    if i < |params| {
      var next := if params[i] == ARRAY then i + 2 else i + 1;
      var rest := Expected(params, next, args[1..]);
      var first := if params[i] == ARRAY then ExpectedArray(params[i + 1], args[0])
                   else if params[i] == VARCHAR then [CStr(args[0].chars)]
                   else if params[i] == FD then [FileDescriptor(args[0].fd)] else [U32(params[i], args[0].word)];
      assert Expected(params, i, args) == first + rest;
      forall v | v in rest ensures Bounded(v) { assert v in first + rest; }
      forall v | v in first ensures Bounded(v) { assert v in first + rest; }
      BoundedIsShort(params, next, args[1..]);
      FirstIsShort(params[i], if params[i] == ARRAY then params[i + 1] else 0, args[0], first);
      assert args == [args[0]] + args[1..];
    }
  }

  lemma FirstIsShort(magic: byte, elem: byte, a: CallArg, first: seq<Value>)
    requires if magic == ARRAY then KnownElem(elem) && FitsArray(elem, a) && first == ExpectedArray(elem, a)
             else if magic == VARCHAR then a.TextArg? && first == [CStr(a.chars)]
             else a.WordArg? || a.FdArg?
    requires forall v :: v in first ==> Bounded(v)
    ensures Short(a)
  {
    hide CString;
    if magic == ARRAY {
      assert first[0] in first && first[1] in first;
    } else if magic == VARCHAR {
      assert first[0] in first;
    }
  }

  /**
    A call's frame brings the caller's arguments to the other end if and only if none of its strings
    and arrays is 2^28 or more long.
   */
  lemma CallArrivesExactly(data: seq<byte>, off: nat, objectId: u32, methodId: u32, m: Method, returnSeq: Option<u32>,
          args: seq<CallArg>)
    requires Known(m.params, 0) && Fits(m.params, 0, args)
    requires returnSeq.Some? <==> m.returnsType != []
    requires At(data, off, CallBytes(objectId, methodId, m, returnSeq, args))
    ensures AllShort(args) <==>
            var g := ReadGeneric(data, off);
            && g.Some? && FdTotal(g.value.args) <= |AllSends(args)|
            && g.value.next == off + |CallBytes(objectId, methodId, m, returnSeq, args)|
            && ArgsValues(g.value.args, AllSends(args)) == CallValues(m, returnSeq, args)
  {
    hide ReadGeneric, At, CallBytes, CallArgs, ArgsValues, Expected, FdTotal, Short, CheckFrom, ValidArgs;
    if AllShort(args) {
      CallArrives(data, off, [], objectId, methodId, m, returnSeq, args);
      assert AllSends(args) + [] == AllSends(args);
    }
    var g := ReadGeneric(data, off);
    if g.Some? && FdTotal(g.value.args) <= |AllSends(args)|
          && ArgsValues(g.value.args, AllSends(args)) == CallValues(m, returnSeq, args) {
      SpanOfFrame(data, off);
      ValuesAreBounded(g.value.args, AllSends(args));
      forall v | v in Expected(m.params, 0, args) ensures Bounded(v) {
        assert v in CallValues(m, returnSeq, args);
      }
      BoundedIsShort(m.params, 0, args);
    }
  }
}
