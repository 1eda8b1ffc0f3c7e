/** What a walk over an argument list has behind it: the vocabulary of the loops' invariants. */
module ArgWalk {
  import opened Bytes
  import opened WireFormat

  /** `r` with `pre` put in front of what was read. */
  function Then(pre: seq<Arg>, r: Option<ArgsEnd>): Option<ArgsEnd> {
    match r
    case None => None
    case Some(e) => Some(ArgsEnd(pre + e.args, e.next))
  }

  /** A walk that began at `start` has passed exactly the arguments `pre` and stands at `p`. */
  ghost predicate Passed(data: seq<byte>, start: nat, pre: seq<Arg>, p: nat) {
    && ValidArgs(pre)
    && p == start + |ArgsBytes(pre)|
    && ReadArgs(data, start) == Then(pre, ReadArgs(data, p))
  }

  lemma PassedNone(data: seq<byte>, start: nat)
    ensures Passed(data, start, [], start)
  {
    if ReadArgs(data, start).Some? {
      var e := ReadArgs(data, start).value;
      assert [] + e.args == e.args;
    }
  }

  lemma {:induction false} ArgsBytesAppend(pre: seq<Arg>, a: Arg)
    requires ValidArgs(pre) && ValidArg(a)
    ensures ValidArgs(pre + [a]) && ArgsBytes(pre + [a]) == ArgsBytes(pre) + ArgBytes(a)
    decreases |pre|
  {
    hide ArgBytes;
    if pre == [] {
      assert [a][1..] == [];
    } else {
      ArgsBytesAppend(pre[1..], a);
      assert (pre + [a])[0] == pre[0] && (pre + [a])[1..] == pre[1..] + [a];
    }
  }

  lemma {:induction false} FdTotalAppend(pre: seq<Arg>, a: Arg)
    ensures FdTotal(pre + [a]) == FdTotal(pre) + FdsOf(a)
    decreases |pre|
  {
    if pre == [] {
      assert [a][1..] == [];
    } else {
      FdTotalAppend(pre[1..], a);
      assert (pre + [a])[0] == pre[0] && (pre + [a])[1..] == pre[1..] + [a];
    }
  }

  lemma {:induction false} StartsAppend(pre: seq<Arg>, a: Arg, from: nat)
    requires ValidArgs(pre) && ValidArg(a)
    ensures ValidArgs(pre + [a]) && Starts(pre + [a], from) == Starts(pre, from) + [from + |ArgsBytes(pre)|]
    decreases |pre|
  {
    hide ArgBytes, ValidArg;
    if pre == [] {
      assert [a][1..] == [];
    } else {
      var next := from + |ArgBytes(pre[0])|;
      StartsAppend(pre[1..], a, next);
      assert (pre + [a])[0] == pre[0] && (pre + [a])[1..] == pre[1..] + [a];
      assert from + |ArgsBytes(pre)| == next + |ArgsBytes(pre[1..])|;
      assert Starts(pre + [a], from) == [from] + (Starts(pre[1..], next) + [from + |ArgsBytes(pre)|]);
    }
  }

  /** One step of a walk: past the next argument, or, where none can be read, to certain failure. */
  lemma Advance(data: seq<byte>, start: nat, pre: seq<Arg>, p: nat)
    requires Passed(data, start, pre, p) && p < |data| && data[p] != END
    ensures ReadArg(data, p).None? ==> ReadArgs(data, start).None?
    ensures ReadArg(data, p).Some? ==>
              var a := ReadArg(data, p).value;
              && ValidArg(a.arg) && ValidArgs(pre + [a.arg])
              && Passed(data, start, pre + [a.arg], a.next)
              && a.next == p + |ArgBytes(a.arg)|
              && FdTotal(pre + [a.arg]) == FdTotal(pre) + FdsOf(a.arg)
              && Starts(pre + [a.arg], start) == Starts(pre, start) + [p]
  {
    hide ReadArg, ArgBytes, ValidArg;
    if ReadArg(data, p).Some? {
      var a := ReadArg(data, p).value;
      ReadArgIsThere(data, p);
      ArgsBytesAppend(pre, a.arg);
      FdTotalAppend(pre, a.arg);
      StartsAppend(pre, a.arg, start);
      if ReadArgs(data, a.next).Some? {
        var e := ReadArgs(data, a.next).value;
        assert pre + ([a.arg] + e.args) == pre + [a.arg] + e.args;
      }
    }
  }

  lemma Arrive(data: seq<byte>, start: nat, pre: seq<Arg>, p: nat)
    requires Passed(data, start, pre, p) && p < |data| && data[p] == END
    ensures ReadArgs(data, start) == Some(ArgsEnd(pre, p + 1))
  {
    assert pre + [] == pre;
  }

  /** On a list known to be readable a walk has the rest of the list before it. */
  lemma Ahead(data: seq<byte>, start: nat, pre: seq<Arg>, p: nat, args: seq<Arg>, next: nat)
    requires Passed(data, start, pre, p) && ReadArgs(data, start) == Some(ArgsEnd(args, next))
    ensures |pre| <= |args| && pre == args[..|pre|] && p < |data|
    ensures ReadArgs(data, p) == Some(ArgsEnd(args[|pre|..], next))
    ensures data[p] == END <==> |pre| == |args|
    ensures |pre| < |args| ==>
              && ReadArg(data, p).Some? && ReadArg(data, p).value.arg == args[|pre|]
              && Magic(args[|pre|]) == data[p]
              && args[..|pre| + 1] == pre + [args[|pre|]]
  {
    hide ArgBytes, ReadArg, ValidArg;
    var rest := ReadArgs(data, p).value.args;
    assert args == pre + rest;
    assert args[|pre|..] == rest;
    if data[p] != END {
      ReadArgIsThere(data, p);
      AtHeadOf(data, p, ArgBytes(ReadArg(data, p).value.arg));
    }
  }
}
