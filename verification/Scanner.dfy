/**
  CGenericProtocolMessage: finding the end of a frame of self-describing arguments in a received
  buffer, and claiming its file descriptors from the queue received beside it.
 */
module Scanner {
  import opened Bytes
  import opened VarInt
  import opened WireFormat
  import opened ArgWalk

  const GENERIC: byte := 100

  /** SSocketRawParsedMessage: the octets and descriptors of one received batch. */
  class RawMessage {
    var data: seq<byte>
    var fds: seq<int>

    constructor (data: seq<byte>, fds: seq<int>)
      ensures this.data == data && this.fds == fds
    {
      this.data := data;
      this.fds := fds;
    }
  }

  datatype GenericMessage = GenericMessage(objectId: u32, methodId: u32, span: seq<byte>, fds: seq<int>, len: nat)

  /**
    `Malformed` is a message whose length stayed 0. `Undefined` is a run the source leaves open:
    a count that is longer than four octets or runs past the buffer.
   */
  datatype Scan = Frame(msg: GenericMessage) | Malformed | Undefined

  datatype GenericEnd = GenericEnd(objectId: u32, methodId: u32, args: seq<Arg>, next: nat)

  /** The frame at `off` by the grammar: OBJECT, UINT and the arguments of the call. */
  function ReadGeneric(data: seq<byte>, off: nat): Option<GenericEnd> {
    if off >= |data| || data[off] != GENERIC then None
    else
      match ReadArgs(data, off + 1)
      case None => None
      case Some(e) =>
        if |e.args| >= 2 && e.args[0].Word? && e.args[0].kind == OBJECT && e.args[1].Word? && e.args[1].kind == UINT
        then Some(GenericEnd(e.args[0].value, e.args[1].value, e.args[2..], e.next))
        else None
  }

  predicate HasHeader(data: seq<byte>, off: nat) {
    off + 11 <= |data| && data[off] == GENERIC && data[off + 1] == OBJECT && data[off + 6] == UINT
  }

  lemma HeaderOfGeneric(data: seq<byte>, off: nat)
    ensures ReadGeneric(data, off) ==
            if !HasHeader(data, off) then None
            else match ReadArgs(data, off + 11)
              case None => None
              case Some(e) => Some(GenericEnd(WordAt(data, off + 2), WordAt(data, off + 7), e.args, e.next))
  {
    hide WordAt, ReadArg;
    if off < |data| && data[off] == GENERIC && ReadArgs(data, off + 1).Some? && data[off + 1] != END {
      ReadArgMagic(data, off + 1);
      var second := ReadArg(data, off + 1).value.next;
      var tail := ReadArgs(data, second);
      if data[off + 1] == OBJECT && data[off + 6] != END {
        ReadArgMagic(data, off + 6);
        if data[off + 6] == UINT {
          var rest := ReadArgs(data, off + 11);
          var w0, w1 := Word(OBJECT, WordAt(data, off + 2)), Word(UINT, WordAt(data, off + 7));
          if rest.Some? {
            assert [w0] + ([w1] + rest.value.args) == [w0, w1] + rest.value.args;
            assert ([w0, w1] + rest.value.args)[2..] == rest.value.args;
          }
        }
      }
    } else if HasHeader(data, off) {
      assert ReadArg(data, off + 1).Some? && ReadArg(data, off + 6).Some? by { WordsRead(data, off); }
      ReadArgMagic(data, off + 1);
      ReadArgMagic(data, off + 6);
      var tail := ReadArgs(data, off + 6);
    }
  }

  lemma WordsRead(data: seq<byte>, off: nat)
    requires HasHeader(data, off)
    ensures ReadArg(data, off + 1).Some? && ReadArg(data, off + 6).Some?
  {}

  /** The inner loop over an array of descriptors: one after the other off the queue's front. */
  method ClaimFds(raw: RawMessage, n: nat) returns (ok: bool, got: seq<int>)
    modifies raw`fds
    ensures ok <==> n <= |old(raw.fds)|
    ensures got + raw.fds == old(raw.fds)
    ensures ok ==> |got| == n
  {
    got := [];
    var j := 0;
    while j < n
      invariant 0 <= j <= n && |got| == j && got + raw.fds == old(raw.fds)
    {
      if raw.fds == [] { return false, got; }
      assert raw.fds == [raw.fds[0]] + raw.fds[1..];
      got := got + [raw.fds[0]];
      raw.fds := raw.fds[1..];
      j := j + 1;
    }
    ok := true;
  }

  /** The inner loop over an array of strings; `ok` is false when a count could not be read. */
  method SkipTexts(data: seq<byte>, offset: nat, i: nat, n: nat, headLen: nat)
    returns (ok: bool, arrMessageLen: nat)
    ensures ReadTexts(data, offset + i + headLen, n).Some? ==>
              ok && offset + i + arrMessageLen == ReadTexts(data, offset + i + headLen, n).value.next
    ensures ok && ReadTexts(data, offset + i + headLen, n).None? ==> offset + i + arrMessageLen >= |data|
  {
    hide ReadCount, ReadText, ReadTexts, ParsedCount;
    arrMessageLen := headLen;
    var j := 0;
    ghost var whole := ReadTexts(data, offset + i + headLen, n);
    ghost var lost := false;
    while j < n
      invariant 0 <= j <= n
      invariant lost ==> whole.None? && offset + i + arrMessageLen >= |data|
      invariant !lost ==> SameEnd(whole, ReadTexts(data, offset + i + arrMessageLen, n - j))
    {
      var at := offset + i + arrMessageLen;
      var c := ParseVarInt(data, at, |data| - i - arrMessageLen);
      ParsedInside(data, at, |data| - i - arrMessageLen, c);
      TextsStep(data, at, n - j, c);
      if c.None? { return false, arrMessageLen; }
      if ReadText(data, at).None? { lost := true; }
      arrMessageLen := arrMessageLen + c.value.value + c.value.width;
      j := j + 1;
    }
    if !lost { TextsDone(data, offset + i + arrMessageLen); }
    ok := true;
  }

  ghost predicate SameEnd(a: Option<TextsEnd>, b: Option<TextsEnd>) {
    (a.Some? <==> b.Some?) && (a.Some? ==> a.value.next == b.value.next)
  }

  lemma TextsDone(data: seq<byte>, at: nat)
    ensures ReadTexts(data, at, 0) == Some(TextsEnd([], at))
  {}

  /** One string of an array: stepping over its count and octets leads to the rest of the array. */
  lemma TextsStep(data: seq<byte>, at: nat, n: nat, c: Option<Count>)
    requires n > 0
    requires ReadCount(data, at).Some? ==> c == ReadCount(data, at)
    requires c.Some? && ReadCount(data, at).None? ==> at + c.value.width == |data|
    ensures c.None? ==> ReadTexts(data, at, n).None?
    ensures c.Some? && ReadText(data, at).None? ==>
              ReadTexts(data, at, n).None? && at + c.value.value + c.value.width >= |data|
    ensures c.Some? && ReadText(data, at).Some? ==>
              SameEnd(ReadTexts(data, at, n), ReadTexts(data, at + c.value.value + c.value.width, n - 1))
  {
    hide ReadCount;
  }

  method ScanArray(raw: RawMessage, offset: nat, i: nat)
    returns (r: Option<nat>, undefined: bool, got: seq<int>)
    requires offset + i < |raw.data| && raw.data[offset + i] == ARRAY
    modifies raw`fds
    ensures got + raw.fds == old(raw.fds)
    ensures undefined ==> r.None?
    ensures r.Some? ==> var a := ReadArg(raw.data, offset + i);
              if a.Some? then offset + i + r.value == a.value.next && |got| == FdsOf(a.value.arg)
              else offset + i + r.value >= |raw.data|
    ensures r.None? ==> var a := ReadArg(raw.data, offset + i);
              a.Some? ==> FdsOf(a.value.arg) > |old(raw.fds)|
  {
    hide ReadCount, ReadText, ReadTexts, ReadWords;
    var data := raw.data;
    got, undefined := [], false;
    if offset + i + 1 >= |data| { return None, false, []; }
    var arrType := data[offset + i + 1];
    var c := ParseVarInt(data, offset + i + 2, |data| - i);
    ParsedInside(data, offset + i + 2, |data| - i, c);
    if c.None? { return None, true, []; }
    var arrLen, arrMessageLen := c.value.value, 2 + c.value.width;
    if IsWord(arrType) {
      arrMessageLen := arrMessageLen + 4 * arrLen;
    } else if arrType == VARCHAR {
      var ok;
      ok, arrMessageLen := SkipTexts(data, offset, i, arrLen, arrMessageLen);
      if !ok { return None, true, []; }
    } else if arrType == FD {
      var ok;
      ok, got := ClaimFds(raw, arrLen);
      if !ok { return None, false, got; }
    } else {
      return None, false, [];
    }
    r := Some(arrMessageLen);
  }

  /** What `ScanFrame` owes for the frame at `off`. */
  ghost predicate Scanned(data: seq<byte>, off: nat, fds: seq<int>, fds': seq<int>, r: Scan, stops: seq<nat>) {
    && (r.Frame? <==> var g := ReadGeneric(data, off); g.Some? && FdTotal(g.value.args) <= |fds|)
    && (r.Frame? ==>
          var g := ReadGeneric(data, off).value;
          var n := FdTotal(g.args);
          && off + 11 <= g.next <= |data|
          && r.msg == GenericMessage(g.objectId, g.methodId, data[off + 11..g.next], fds[..n], g.next - off)
          && fds' == fds[n..]
          && ValidArgs(g.args)
          && stops == Starts(g.args, off + 11))
    && (exists k :: 0 <= k <= |fds| && fds' == fds[k..])
  }

  lemma ScannedNothing(data: seq<byte>, off: nat, fds: seq<int>, got: seq<int>, fds': seq<int>, r: Scan,
          stops: seq<nat>)
    requires !r.Frame? && got + fds' == fds
    requires ReadGeneric(data, off).Some? ==> FdTotal(ReadGeneric(data, off).value.args) > |fds|
    ensures Scanned(data, off, fds, fds', r, stops)
  {
    assert fds' == fds[|got|..];
  }

  lemma {:induction false} FdTotalPrefix(pre: seq<Arg>, args: seq<Arg>)
    ensures FdTotal(pre + args) == FdTotal(pre) + FdTotal(args)
    decreases |pre|
  {
    if pre == [] {
      assert pre + args == args;
    } else {
      FdTotalPrefix(pre[1..], args);
      assert (pre + args)[0] == pre[0] && (pre + args)[1..] == pre[1..] + args;
    }
  }

  /** The loop of `ScanFrame` before the argument at `p`: what it has claimed and where it has stopped. */
  ghost predicate OnTheWay(data: seq<byte>, start: nat, pre: seq<Arg>, p: nat, claimed: seq<int>, stops: seq<nat>) {
    Passed(data, start, pre, p) && |claimed| == FdTotal(pre) && stops == Starts(pre, start)
  }

  lemma SetOut(data: seq<byte>, start: nat)
    ensures OnTheWay(data, start, [], start, [], [])
  {
    PassedNone(data, start);
  }

  lemma StepOn(data: seq<byte>, start: nat, pre: seq<Arg>, p: nat, claimed: seq<int>, stops: seq<nat>, got: seq<int>)
    requires OnTheWay(data, start, pre, p, claimed, stops) && p < |data| && data[p] != END
    ensures ReadArg(data, p).None? ==> ReadArgs(data, start).None?
    ensures ReadArg(data, p).Some? && |got| == FdsOf(ReadArg(data, p).value.arg) ==>
              var a := ReadArg(data, p).value;
              OnTheWay(data, start, pre + [a.arg], a.next, claimed + got, stops + [p])
  {
    hide Passed, ReadArg, ReadArgs, FdTotal, FdsOf, Starts, ArgBytes;
    Advance(data, start, pre, p);
  }

  /** Too few descriptors for the next argument are too few for the frame. */
  lemma TooFewFds(data: seq<byte>, start: nat, pre: seq<Arg>, p: nat, claimed: seq<int>, stops: seq<nat>, left: nat)
    requires OnTheWay(data, start, pre, p, claimed, stops) && p < |data| && data[p] != END
    requires ReadArg(data, p).Some? ==> FdsOf(ReadArg(data, p).value.arg) > left
    ensures ReadArgs(data, start).Some? ==> FdTotal(ReadArgs(data, start).value.args) > |claimed| + left
  {
    hide ReadArg, FdsOf;
    Advance(data, start, pre, p);
    if ReadArgs(data, start).Some? {
      var a := ReadArg(data, p).value;
      FdTotalPrefix(pre + [a.arg], ReadArgs(data, a.next).value.args);
    }
  }

  lemma TheEnd(data: seq<byte>, start: nat, pre: seq<Arg>, p: nat, claimed: seq<int>, stops: seq<nat>)
    requires OnTheWay(data, start, pre, p, claimed, stops)
    ensures p >= |data| ==> ReadArgs(data, start).None?
    ensures p < |data| && data[p] == END ==>
              && ReadArgs(data, start) == Some(ArgsEnd(pre, p + 1))
              && ValidArgs(pre) && |claimed| == FdTotal(pre) && stops == Starts(pre, start)
  {
    if p < |data| && data[p] == END { Arrive(data, start, pre, p); }
  }

  /** The loop over the arguments: the offset of the END octet from the frame's beginning. */
  method ScanArgs(raw: RawMessage, offset: nat)
    returns (r: Option<nat>, undefined: bool, claimed: seq<int>, ghost stops: seq<nat>)
    modifies raw`fds
    ensures claimed + raw.fds == old(raw.fds)
    ensures r.Some? ==> var e := ReadArgs(raw.data, offset + 11);
              && e.Some? && ValidArgs(e.value.args) && r.value >= 11
              && e.value.next == offset + r.value + 1
              && |claimed| == FdTotal(e.value.args)
              && stops == Starts(e.value.args, offset + 11)
    ensures r.None? ==> var e := ReadArgs(raw.data, offset + 11);
              e.Some? ==> FdTotal(e.value.args) > |old(raw.fds)|
  {
    hide ReadArg, OnTheWay, FdTotal, ReadArgs, Starts, FdsOf;
    var data := raw.data;
    ghost var start := offset + 11;
    var i := 11;
    claimed, stops, undefined := [], [], false;
    ghost var pre: seq<Arg>, lost := [], false;
    SetOut(data, start);
    while offset + i < |data| && data[offset + i] != END
      invariant i >= 11 && raw.data == data && claimed + raw.fds == old(raw.fds)
      invariant if lost then offset + i >= |data| && ReadArgs(data, start).None?
                else OnTheWay(data, start, pre, offset + i, claimed, stops)
      decreases |data| - i
    {
      var step, und, got := ScanArg(raw, offset, i);
      ghost var a := ReadArg(data, offset + i);
      StepOn(data, start, pre, offset + i, claimed, stops, got);
      if step.None? {
        TooFewFds(data, start, pre, offset + i, claimed, stops, |old(raw.fds)| - |claimed|);
        return None, und, claimed + got, stops;
      }
      claimed, stops := claimed + got, stops + [offset + i];
      if a.Some? { pre := pre + [a.value.arg]; } else { lost := true; }
      i := i + step.value;
    }
    if !lost { TheEnd(data, start, pre, offset + i, claimed, stops); }
    if offset + i >= |data| {
      return None, false, claimed, stops;
    }
    r := Some(i);
  }

  /** The receiving constructor of CGenericProtocolMessage. */
  method ScanFrame(raw: RawMessage, offset: nat) returns (r: Scan, ghost stops: seq<nat>)
    modifies raw`fds
    ensures Scanned(raw.data, offset, old(raw.fds), raw.fds, r, stops)
  {
    hide Scanned, ReadGeneric, FdTotal, WordAt, ReadArgs, Starts;
    var data := raw.data;
    HeaderOfGeneric(data, offset);
    stops := [];
    if !(offset < |data| && data[offset] == GENERIC && offset + 1 < |data| && data[offset + 1] == OBJECT
         && offset + 6 < |data| && data[offset + 6] == UINT && offset + 11 <= |data|) {
      ScannedNothing(data, offset, raw.fds, [], raw.fds, Malformed, stops);
      return Malformed, stops;
    }
    var objectId, methodId := WordAt(data, offset + 2), WordAt(data, offset + 7);
    ghost var fds0 := raw.fds;
    var i, undefined, claimed;
    i, undefined, claimed, stops := ScanArgs(raw, offset);
    if i.None? {
      r := if undefined then Undefined else Malformed;
      ScannedNothing(data, offset, fds0, claimed, raw.fds, r, stops);
      return;
    }
    var len := i.value + 1;
    ReadInside(data, offset + 11);
    r := Frame(GenericMessage(objectId, methodId, data[11 + offset..offset + len], claimed, len));
    ScannedFrame(data, offset, fds0, claimed, raw.fds, r, stops, ReadArgs(data, offset + 11).value.args, offset + len);
  }

  lemma ReadInside(data: seq<byte>, i: nat)
    ensures ReadArgs(data, i).Some? ==> i < ReadArgs(data, i).value.next <= |data|
  {}

  lemma ScannedFrame(data: seq<byte>, off: nat, fds: seq<int>, got: seq<int>, fds': seq<int>, r: Scan,
                     stops: seq<nat>, args: seq<Arg>, next: nat)
    requires HasHeader(data, off) && ReadArgs(data, off + 11) == Some(ArgsEnd(args, next)) && next <= |data|
    requires got + fds' == fds && |got| == FdTotal(args)
    requires ValidArgs(args) && stops == Starts(args, off + 11) && off + 11 <= next
    requires r == Frame(GenericMessage(WordAt(data, off + 2), WordAt(data, off + 7), data[off + 11..next],
                                       got, next - off))
    ensures Scanned(data, off, fds, fds', r, stops)
  {
    hide WordAt, ReadArgs, Starts;
    HeaderOfGeneric(data, off);
    assert got == fds[..|got|] && fds' == fds[|got|..];
  }

  /** The switch over one argument: the octets to step over, or why the frame is given up. */
  method ScanArg(raw: RawMessage, offset: nat, i: nat)
    returns (step: Option<nat>, undefined: bool, got: seq<int>)
    requires offset + i < |raw.data| && raw.data[offset + i] != END
    modifies raw`fds
    ensures got + raw.fds == old(raw.fds)
    ensures undefined ==> step.None?
    ensures step.Some? ==> var a := ReadArg(raw.data, offset + i);
              && step.value > 0
              && if a.Some? then offset + i + step.value == a.value.next && |got| == FdsOf(a.value.arg)
                 else offset + i + step.value >= |raw.data|
    ensures step.None? ==> var a := ReadArg(raw.data, offset + i);
              a.Some? ==> FdsOf(a.value.arg) > |old(raw.fds)|
  {
    hide ReadCount, ReadArray, WordAt;
    var data := raw.data;
    var magic := data[offset + i];
    got, undefined := [], false;
    if IsWord(magic) {
      step := Some(5);
    } else if magic == VARCHAR {
      var c := ParseVarInt(data, offset + i + 1, |data| - (offset + i + 1));
      ParsedInside(data, offset + i + 1, |data| - (offset + i + 1), c);
      if c.None? { return None, true, []; }
      step := Some(c.value.value + c.value.width + 1);
    } else if magic == ARRAY {
      step, undefined, got := ScanArray(raw, offset, i);
    } else if magic == FD {
      if raw.fds == [] { return None, false, []; }
      assert raw.fds == [raw.fds[0]] + raw.fds[1..];
      got := [raw.fds[0]];
      raw.fds := raw.fds[1..];
      step := Some(1);
    } else {
      step := None;
    }
  }
}
