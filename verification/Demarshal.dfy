/**
  IWireObject::called: the type check of a received argument list against a method's parameters,
  and the second walk that turns the list into the values handed to the listener.
 */
module Demarshal {
  import opened Bytes
  import opened VarInt
  import opened WireFormat
  import opened ArgWalk

  // ---- values and foreign types ---------------------------------------------------------

  /** What the listener receives. A pointer to a counted array is followed by its length. */
  datatype Value =
    | Self
    | U32(kind: byte, word: u32)
    | CStr(chars: seq<byte>)
    | Words(elem: byte, words: seq<u32>)
    | CStrs(strings: seq<seq<byte>>)
    | Fds(fds: seq<int>)
    | Length(count: nat)
    | FileDescriptor(fd: int)

  datatype FfiType = Pointer | UInt32 | SInt32 | Float | NoType

  /** FFI::ffiTypeFrom. */
  function FfiTypeFrom(magic: byte): FfiType {
    if magic == UINT || magic == OBJECT || magic == SEQ then UInt32
    else if magic == FD || magic == INT then SInt32
    else if magic == F32 then Float
    else if magic == VARCHAR || magic == ARRAY then Pointer
    else NoType
  }

  /** The foreign type a value is laid out for: floats, signed and unsigned words apart, an address for the rest. */
  function TypeOf(v: Value): FfiType {
    match v
    case U32(kind, _) => if kind == INT then SInt32 else if kind == F32 then Float else UInt32
    case Length(_) => UInt32
    case FileDescriptor(_) => SInt32
    case _ => Pointer
  }

  /** The string a C reader sees: up to the first NUL. */
  function UpToNul(s: seq<byte>): seq<byte> {
    if s == [] || s[0] == 0 then [] else [s[0]] + UpToNul(s[1..])
  }

  lemma {:induction false} NulFree(s: seq<byte>)
    ensures UpToNul(s) == s <==> 0 !in s
    decreases |s|
  {
    if s != [] {
      NulFree(s[1..]);
      assert s == [s[0]] + s[1..];
      if s[0] != 0 && UpToNul(s) == s { assert UpToNul(s)[1..] == UpToNul(s[1..]); }
    }
  }

  function UpToNuls(texts: seq<Text>): (r: seq<seq<byte>>)
    ensures |r| == |texts|
  {
    if texts == [] then [] else [UpToNul(texts[0].chars)] + UpToNuls(texts[1..])
  }

  /** The values of one argument, its descriptors taken from the front of `fds`. */
  function ArgValues(a: Arg, fds: seq<int>): seq<Value>
    requires FdsOf(a) <= |fds|
  {
    match a
    case Word(kind, value) => [U32(kind, value)]
    case Varchar(t) => [CStr(UpToNul(t.chars))]
    case Fd => [FileDescriptor(fds[0])]
    case WordArray(kind, _, words) => [Words(kind, words), Length(|words|)]
    case TextArray(_, texts) => [CStrs(UpToNuls(texts)), Length(|texts|)]
    case FdArray(_, count) => [Fds(fds[..count]), Length(count)]
  }

  function ArgsValues(args: seq<Arg>, fds: seq<int>): seq<Value>
    requires FdTotal(args) <= |fds|
  {
    if args == [] then [] else ArgValues(args[0], fds) + ArgsValues(args[1..], fds[FdsOf(args[0])..])
  }

  // ---- the type check -------------------------------------------------------------------

  /** `Thrown` is the std::out_of_range of `params.at` behind a trailing ARRAY. */
  datatype Check = Pass(types: seq<FfiType>) | Mismatch | Thrown

  function Prepend(types: seq<FfiType>, c: Check): Check {
    match c case Pass(ts) => Pass(types + ts) case _ => c
  }

  function Elem(a: Arg): byte {
    match a
    case WordArray(kind, _, _) => kind
    case TextArray(_, _) => VARCHAR
    case _ => FD
  }

  function NextMagic(args: seq<Arg>): byte {
    if args == [] then END else Magic(args[0])
  }

  /** The type check on the argument list itself, from parameter octet `i` on. */
  function CheckFrom(params: seq<byte>, i: nat, args: seq<Arg>): Check
    decreases |params| - i
  {
    if i >= |params| then Pass([])
    else if params[i] != NextMagic(args) then Mismatch
    else if params[i] == END then Prepend([NoType], CheckFrom(params, i + 2, args))
    else if params[i] == ARRAY then
      if i + 1 >= |params| then Thrown
      else if args == [] || params[i + 1] != Elem(args[0]) then Mismatch
      else Prepend([Pointer, UInt32], CheckFrom(params, i + 2, args[1..]))
    else
      Prepend([FfiTypeFrom(params[i])], CheckFrom(params, i + 1, if args == [] then [] else args[1..]))
  }

  lemma PrependTwice(a: seq<FfiType>, b: seq<FfiType>, c: Check)
    ensures Prepend(a, Prepend(b, c)) == Prepend(a + b, c)
  {
    if c.Pass? { assert a + (b + c.types) == a + b + c.types; }
  }

  /** The array length and body inside the type check: octets taken by the array at `dataI`. */
  method CheckArray(data: seq<byte>, dataI: nat, i: nat) returns (r: Option<nat>)
    requires dataI < |data| && data[dataI] == ARRAY && i <= dataI + 1
    requires ReadArg(data, dataI).Some? && ReadArg(data, dataI).value.next < |data|
    ensures r.Some? && dataI + r.value == ReadArg(data, dataI).value.next
  {
    hide ReadCount, ReadText, ReadTexts, ReadWords, WordAt, ParsedCount;
    var arrType := data[dataI + 1];
    var c := ParseVarInt(data, dataI + 2, |data| - i);
    ParsedInside(data, dataI + 2, |data| - i, c);
    var arrLen, arrMessageLen := c.value.value, 2 + c.value.width;
    if IsWord(arrType) {
      arrMessageLen := arrMessageLen + 4 * arrLen;
    } else if arrType == VARCHAR {
      var j := 0;
      ghost var whole := ReadTexts(data, dataI + arrMessageLen, arrLen).value;
      while j < arrLen
        invariant 0 <= j <= arrLen && arrMessageLen >= 2 && dataI + arrMessageLen <= |data|
        invariant var rest := ReadTexts(data, dataI + arrMessageLen, arrLen - j);
                  rest.Some? && rest.value.next == whole.next
      {
        var at := dataI + arrMessageLen;
        if at > |data| { return None; }
        TextsStep(data, at, arrLen - j);
        var s := ParseVarInt(data, at, |data| - dataI - arrMessageLen);
        ParsedInside(data, at, |data| - dataI - arrMessageLen, s);
        TextFollowsCount(data, at);
        arrMessageLen := arrMessageLen + s.value.value + s.value.width;
        j := j + 1;
      }
      TextsDone(data, dataI + arrMessageLen);
    }
    r := Some(arrMessageLen);
  }

  lemma TextFollowsCount(data: seq<byte>, at: nat)
    requires ReadText(data, at).Some?
    ensures ReadCount(data, at).Some?
    ensures var c := ReadCount(data, at).value;
            && at + c.width + c.value == ReadText(data, at).value.next <= |data|
            && ReadText(data, at).value.text == Text(c.width, data[at + c.width..at + c.width + c.value])
  {}

  /**
    The loop over the parameters. Every index into `data` is in range; `stops` records where it
    looked for an argument.
   */
  method TypeCheck(params: seq<byte>, data: seq<byte>, ghost args: seq<Arg>)
    returns (r: Check, ghost stops: seq<nat>)
    requires ReadArgs(data, 0) == Some(ArgsEnd(args, |data|)) && ValidArgs(args)
    ensures r == CheckFrom(params, 0, args)
    ensures r.Pass? && END !in params ==> stops <= Starts(args, 0)
  {
    hide ReadArg, Passed, ReadArgs, Starts, ArgBytes, ArgsBytes, ValidArg, FfiTypeFrom, FdTotal, FdsOf;
    var dataI: nat, i: nat := 0, 0;
    var types: seq<FfiType> := [];
    ghost var pre: seq<Arg> := [];
    stops := [];
    PassedNone(data, 0);
    StartsOfNone();
    PrependNothing(CheckFrom(params, 0, args));
    while i < |params|
      invariant 0 <= i
      invariant Passed(data, 0, pre, dataI) && ValidArgs(pre) && |pre| <= |args| && pre == args[..|pre|]
      invariant CheckFrom(params, 0, args) == Prepend(types, CheckFrom(params, i, args[|pre|..]))
      invariant i <= dataI || |pre| == |args|
      invariant END !in params[..if i <= |params| then i else |params|] ==> stops == Starts(pre, 0)
      decreases |params| - i
    {
      Ahead(data, 0, pre, dataI, args, |data|);
      ghost var rest := args[|pre|..];
      assert rest != [] ==> rest[0] == args[|pre|] && rest[1..] == args[|pre| + 1..];
      assert NextMagic(rest) == data[dataI];
      if params[i] != data[dataI] {
        return Mismatch, stops;
      }
      if params[i] == END {
        PrependTwice(types, [NoType], CheckFrom(params, i + 2, rest));
        types := types + [NoType];
        assert params[i] in params[..if i + 2 <= |params| then i + 2 else |params|];
        i := i + 2;
        continue;
      }
      Advance(data, 0, pre, dataI);
      ghost var a := ReadArg(data, dataI).value;
      ghost var pre' := pre + [a.arg];
      Ahead(data, 0, pre', a.next, args, |data|);
      KindOfRead(data, dataI);
      var step;
      if params[i] == ARRAY {
        if i + 1 >= |params| {
          return Thrown, stops;
        }
        if params[i + 1] != data[dataI + 1] {
          return Mismatch, stops;
        }
        var len := CheckArray(data, dataI, i + 1);
        PrependTwice(types, [Pointer, UInt32], CheckFrom(params, i + 2, args[|pre'|..]));
        types := types + [Pointer, UInt32];
        step := len.value;
        i := i + 2;
      } else {
        step := CheckPlain(data, dataI);
        PrependTwice(types, [FfiTypeFrom(params[i])], CheckFrom(params, i + 1, args[|pre'|..]));
        types := types + [FfiTypeFrom(params[i])];
        i := i + 1;
      }
      stops := stops + [dataI];
      dataI := dataI + step;
      pre := pre';
    }
    r := Pass(types);
    assert CheckFrom(params, i, args[|pre|..]) == Pass([]);
    assert types + [] == types;
    if END !in params {
      assert END !in params[..if i <= |params| then i else |params|];
      StartsPrefix(pre, args, 0);
    }
  }

  /** The octets of an argument that is no array. */
  method CheckPlain(data: seq<byte>, dataI: nat) returns (step: nat)
    requires dataI < |data| && data[dataI] != ARRAY && ReadArg(data, dataI).Some?
    ensures dataI + step == ReadArg(data, dataI).value.next && step > 0
  {
    hide ReadCount, WordAt;
    if data[dataI] == FD {
      step := 1;
    } else if data[dataI] == VARCHAR {
      var c := ParseVarInt(data, dataI + 1, |data| - dataI);
      ParsedInside(data, dataI + 1, |data| - dataI, c);
      step := c.value.value + c.value.width + 1;
    } else {
      step := 5;
    }
  }

  lemma StartsOfNone()
    ensures Starts([], 0) == []
  {}

  lemma PrependNothing(c: Check)
    ensures Prepend([], c) == c
  {
    if c.Pass? { assert [] + c.types == c.types; }
  }

  lemma KindOfRead(data: seq<byte>, i: nat)
    requires ReadArg(data, i).Some?
    ensures data[i] == ARRAY ==>
              && i + 3 <= ReadArg(data, i).value.next && i + 1 < |data|
              && data[i + 1] == Elem(ReadArg(data, i).value.arg)
  {
    hide ReadTexts, ReadWords;
  }

  lemma {:induction false} StartsPrefix(pre: seq<Arg>, args: seq<Arg>, from: nat)
    requires ValidArgs(args) && |pre| <= |args| && pre == args[..|pre|]
    ensures ValidArgs(pre) && Starts(pre, from) <= Starts(args, from)
    decreases |pre|
  {
    hide ArgBytes;
    if pre != [] {
      assert pre[1..] == args[1..][..|pre| - 1];
      StartsPrefix(pre[1..], args[1..], from + |ArgBytes(args[0])|);
    }
  }

  // ---- the demarshalling walk -----------------------------------------------------------

  /** One string of an array, up to its NUL, with its length on the wire; `span` reaches past the buffer. */
  method DemarshalText(data: seq<byte>, at: nat, span: nat) returns (str: seq<byte>, len: nat)
    requires ReadText(data, at).Some? && at + span >= |data|
    ensures var t := ReadText(data, at).value; at + len == t.next && str == UpToNul(t.text.chars)
  {
    hide ReadCount, ReadText, UpToNul, ParsedCount;
    var c := ParseVarInt(data, at, span);
    ParsedInside(data, at, span, c);
    TextFollowsCount(data, at);
    var strLen, strlenLen := c.value.value, c.value.width;
    str := UpToNul(data[at + strlenLen..at + strlenLen + strLen]);
    len := strlenLen + strLen;
  }

  method DemarshalTexts(data: seq<byte>, i: nat, headLen: nat, arrLen: nat)
    returns (strings: seq<seq<byte>>, arrMessageLen: nat)
    requires ReadTexts(data, i + headLen, arrLen).Some? && i + headLen <= |data|
    requires ReadTexts(data, i + headLen, arrLen).value.next < |data|
    ensures var ts := ReadTexts(data, i + headLen, arrLen).value;
            i + arrMessageLen == ts.next && strings == UpToNuls(ts.texts)
  {
    hide ReadCount, ReadText, ReadTexts, UpToNul, UpToNuls, ParsedCount;
    ghost var whole := ReadTexts(data, i + headLen, arrLen).value;
    arrMessageLen, strings := headLen, [];
    var j := 0;
    assert [] + UpToNuls(whole.texts) == UpToNuls(whole.texts);
    while j < arrLen
      invariant 0 <= j <= arrLen && i + arrMessageLen <= |data|
      invariant var rest := ReadTexts(data, i + arrMessageLen, arrLen - j);
                && rest.Some? && rest.value.next == whole.next
                && UpToNuls(whole.texts) == strings + UpToNuls(rest.value.texts)
    {
      var at := i + arrMessageLen;
      TextsStep(data, at, arrLen - j);
      var str, len := DemarshalText(data, at, |data| - i);
      ghost var tail := UpToNuls(ReadTexts(data, at + len, arrLen - j - 1).value.texts);
      assert strings + ([str] + tail) == strings + [str] + tail;
      strings := strings + [str];
      arrMessageLen := arrMessageLen + len;
      j := j + 1;
    }
    TextsDone(data, i + arrMessageLen);
    assert strings + [] == strings;
  }

  lemma TextsDone(data: seq<byte>, at: nat)
    ensures ReadTexts(data, at, 0) == Some(TextsEnd([], at)) && UpToNuls([]) == []
  {}

  lemma TextsStep(data: seq<byte>, at: nat, n: nat)
    requires n > 0 && ReadTexts(data, at, n).Some?
    ensures ReadText(data, at).Some?
    ensures var t := ReadText(data, at).value;
            var rest := ReadTexts(data, t.next, n - 1);
            && rest.Some? && rest.value.next == ReadTexts(data, at, n).value.next
            && UpToNuls(ReadTexts(data, at, n).value.texts) == [UpToNul(t.text.chars)] + UpToNuls(rest.value.texts)
  {
    hide ReadText, UpToNul;
    var t := ReadText(data, at).value;
    var rest := ReadTexts(data, t.next, n - 1).value.texts;
    assert ([t.text] + rest)[1..] == rest;
  }

  method DemarshalWords(data: seq<byte>, i: nat, headLen: nat, arrLen: nat)
    returns (words: seq<u32>, arrMessageLen: nat)
    requires i + headLen + 4 * arrLen <= |data|
    ensures words == ReadWords(data, i + headLen, arrLen) && arrMessageLen == headLen + 4 * arrLen
  {
    hide WordAt;
    arrMessageLen, words := headLen, [];
    var j := 0;
    while j < arrLen
      invariant 0 <= j <= arrLen && arrMessageLen == headLen + 4 * j
      invariant ReadWords(data, i + headLen, arrLen) == words + ReadWords(data, i + arrMessageLen, arrLen - j)
    {
      ghost var rest := ReadWords(data, i + arrMessageLen, arrLen - j);
      assert words + ([rest[0]] + rest[1..]) == words + [rest[0]] + rest[1..];
      words := words + [WordAt(data, i + arrMessageLen)];
      arrMessageLen := arrMessageLen + 4;
      j := j + 1;
    }
    assert words + [] == words;
  }

  method DemarshalFds(fds: seq<int>, fdNo: nat, arrLen: nat) returns (got: seq<int>, fdNo': nat)
    requires fdNo + arrLen <= |fds|
    ensures got == fds[fdNo..fdNo + arrLen] && fdNo' == fdNo + arrLen
  {
    got, fdNo' := [], fdNo;
    var j := 0;
    while j < arrLen
      invariant 0 <= j <= arrLen && fdNo' == fdNo + j && got == fds[fdNo..fdNo']
    {
      got := got + [fds[fdNo']];
      fdNo' := fdNo' + 1;
      j := j + 1;
    }
  }

  method DemarshalArray(data: seq<byte>, fds: seq<int>, i: nat, fdNo: nat)
    returns (values: seq<Value>, arrMessageLen: nat, fdNo': nat)
    requires i < |data| && data[i] == ARRAY
    requires ReadArg(data, i).Some? && ReadArg(data, i).value.next < |data|
    requires fdNo + FdsOf(ReadArg(data, i).value.arg) <= |fds|
    ensures var a := ReadArg(data, i).value;
            && i + arrMessageLen == a.next && arrMessageLen >= 1
            && fdNo' == fdNo + FdsOf(a.arg)
            && values == ArgValues(a.arg, fds[fdNo..])
  {
    hide ReadCount, ReadTexts, ReadWords, UpToNuls, WordAt;
    var arrType := data[i + 1];
    var c := ParseVarInt(data, i + 2, |data| - i);
    ParsedInside(data, i + 2, |data| - i, c);
    var arrLen := c.value.value;
    arrMessageLen, fdNo' := 2 + c.value.width, fdNo;
    if IsWord(arrType) {
      var words;
      words, arrMessageLen := DemarshalWords(data, i, arrMessageLen, arrLen);
      values := [Words(arrType, words), Length(arrLen)];
    } else if arrType == VARCHAR {
      var strings;
      ReadTextsLength(data, i + arrMessageLen, arrLen);
      strings, arrMessageLen := DemarshalTexts(data, i, arrMessageLen, arrLen);
      values := [CStrs(strings), Length(arrLen)];
    } else {
      var got;
      got, fdNo' := DemarshalFds(fds, fdNo, arrLen);
      assert got == fds[fdNo..][..arrLen];
      values := [Fds(got), Length(arrLen)];
    }
  }

  lemma ReadTextsLength(data: seq<byte>, i: nat, n: nat)
    ensures ReadTexts(data, i, n).Some? ==> |ReadTexts(data, i, n).value.texts| == n
  {}

  method DemarshalPlain(data: seq<byte>, fds: seq<int>, i: nat, fdNo: nat)
    returns (value: Value, step: nat, fdNo': nat)
    requires i < |data| && data[i] != ARRAY
    requires ReadArg(data, i).Some? && ReadArg(data, i).value.next < |data|
    requires fdNo + FdsOf(ReadArg(data, i).value.arg) <= |fds|
    ensures var a := ReadArg(data, i).value;
            && i + step + 1 == a.next
            && fdNo' == fdNo + FdsOf(a.arg)
            && [value] == ArgValues(a.arg, fds[fdNo..])
  {
    hide ReadCount, UpToNul, WordAt, ReadArray;
    step, fdNo' := 0, fdNo;
    if data[i] == VARCHAR {
      var c := ParseVarInt(data, i + 1, |data| - i - 1);
      ParsedInside(data, i + 1, |data| - i - 1, c);
      var strLen, len := c.value.value, c.value.width;
      value := CStr(UpToNul(data[i + len + 1..i + len + 1 + strLen]));
      step := strLen + len;
    } else if data[i] == FD {
      value := FileDescriptor(fds[fdNo]);
      fdNo' := fdNo + 1;
    } else {
      value := U32(data[i], WordAt(data, i + 1));
      step := 4;
    }
  }

  /** The walk over the data: every index and every descriptor it takes is in range. */
  method DemarshalArgs(data: seq<byte>, fds: seq<int>, ghost args: seq<Arg>)
    returns (avalues: seq<Value>, ghost stops: seq<nat>)
    requires ReadArgs(data, 0) == Some(ArgsEnd(args, |data|)) && ValidArgs(args)
    requires FdTotal(args) <= |fds|
    ensures avalues == [Self] + ArgsValues(args, fds)
    ensures stops == Starts(args, 0)
  {
    hide ReadArg, Passed, ReadArgs, Starts, ArgBytes, ArgsBytes, ValidArg, FdsOf, ArgValues;
    avalues := [Self];
    ghost var pre: seq<Arg> := [];
    stops := [];
    PassedNone(data, 0);
    StartsOfNone();
    var i: nat, fdNo: nat := 0, 0;
    while i < |data|
      invariant |pre| <= |args| && pre == args[..|pre|] && ValidArgs(pre) && Passed(data, 0, pre, i)
      invariant stops == Starts(pre, 0)
      invariant fdNo + FdTotal(args[|pre|..]) <= |fds|
      invariant [Self] + ArgsValues(args, fds) == avalues + ArgsValues(args[|pre|..], fds[fdNo..])
      decreases |data| - i
    {
      Ahead(data, 0, pre, i, args, |data|);
      ghost var rest := args[|pre|..];
      if data[i] == END {
        assert pre == args && ArgsValues(rest, fds[fdNo..]) == [];
        assert avalues + [] == avalues;
        return;
      }
      assert rest[0] == args[|pre|] && rest[1..] == args[|pre| + 1..];
      Advance(data, 0, pre, i);
      ghost var a := ReadArg(data, i).value;
      Ahead(data, 0, pre + [a.arg], a.next, args, |data|);
      ghost var from := fds[fdNo..];
      ghost var tail := ArgsValues(rest[1..], from[FdsOf(a.arg)..]);
      assert from[FdsOf(a.arg)..] == fds[fdNo + FdsOf(a.arg)..];
      stops := stops + [i];
      assert avalues + (ArgValues(a.arg, from) + tail) == avalues + ArgValues(a.arg, from) + tail;
      if data[i] == ARRAY {
        var values, arrMessageLen;
        values, arrMessageLen, fdNo := DemarshalArray(data, fds, i, fdNo);
        avalues := avalues + values;
        i := i + (arrMessageLen - 1);
      } else {
        var value, step;
        value, step, fdNo := DemarshalPlain(data, fds, i, fdNo);
        avalues := avalues + [value];
        i := i + step;
      }
      pre := pre + [a.arg];
      i := i + 1;
    }
    Ahead(data, 0, pre, i, args, |data|);
  }
}
