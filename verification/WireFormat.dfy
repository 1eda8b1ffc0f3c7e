/**
  The self-describing argument list every frame of the protocol consists of, as a grammar: the
  octets of an argument list (`ArgsBytes`) and the one reader they determine (`ReadArgs`). The
  three walks of the source over a frame, and the parsers of the control messages, are all proved
  against this reader.
 */
module WireFormat {
  import opened Bytes
  import opened VarInt

  const END: byte := 0x00
  const UINT: byte := 0x10
  const INT: byte := 0x11
  const F32: byte := 0x12
  const SEQ: byte := 0x13
  const VARCHAR: byte := 0x20
  const ARRAY: byte := 0x21
  const OBJECT: byte := 0x22
  const FD: byte := 0x40

  /** The kinds sent as four octets. */
  predicate IsWord(kind: byte) {
    kind == UINT || kind == INT || kind == F32 || kind == SEQ || kind == OBJECT
  }

  /** A counted string; `width` is the number of octets its length takes. */
  datatype Text = Text(width: nat, chars: seq<byte>)

  datatype Arg =
    | Word(kind: byte, value: u32)
    | Varchar(text: Text)
    | Fd
    | WordArray(kind: byte, width: nat, words: seq<u32>)
    | TextArray(width: nat, texts: seq<Text>)
    | FdArray(width: nat, count: nat)

  predicate ValidCount(value: nat, width: nat) {
    1 <= width <= MAX_WIDTH && value < Capacity(width)
  }

  predicate ValidText(t: Text) { ValidCount(|t.chars|, t.width) }

  predicate ValidArg(a: Arg) {
    match a
    case Word(kind, _) => IsWord(kind)
    case Varchar(t) => ValidText(t)
    case Fd => true
    case WordArray(kind, width, words) => IsWord(kind) && ValidCount(|words|, width)
    case TextArray(width, texts) => ValidCount(|texts|, width) && forall t :: t in texts ==> ValidText(t)
    case FdArray(width, count) => ValidCount(count, width)
  }

  predicate ValidArgs(args: seq<Arg>) { forall a :: a in args ==> ValidArg(a) }

  // ---- the octets of an argument list ---------------------------------------------------

  function TextBytes(t: Text): seq<byte>
    requires ValidText(t)
  {
    Spell(|t.chars|, t.width) + t.chars
  }

  function TextsBytes(texts: seq<Text>): seq<byte>
    requires forall t :: t in texts ==> ValidText(t)
  {
    if texts == [] then [] else TextBytes(texts[0]) + TextsBytes(texts[1..])
  }

  function WordsBytes(words: seq<u32>): (b: seq<byte>)
    ensures |b| == 4 * |words|
  {
    if words == [] then [] else Le32(words[0]) + WordsBytes(words[1..])
  }

  function Magic(a: Arg): byte {
    match a
    case Word(kind, _) => kind
    case Varchar(_) => VARCHAR
    case Fd => FD
    case _ => ARRAY
  }

  function ArgBytes(a: Arg): (b: seq<byte>)
    requires ValidArg(a)
    ensures |b| >= 1 && b[0] == Magic(a)
  {
    match a
    case Word(kind, value) => [kind] + Le32(value)
    case Varchar(t) => [VARCHAR] + TextBytes(t)
    case Fd => [FD]
    case WordArray(kind, width, words) => [ARRAY, kind] + Spell(|words|, width) + WordsBytes(words)
    case TextArray(width, texts) => [ARRAY, VARCHAR] + Spell(|texts|, width) + TextsBytes(texts)
    case FdArray(width, count) => [ARRAY, FD] + Spell(count, width)
  }

  function ArgsBytes(args: seq<Arg>): seq<byte>
    requires ValidArgs(args)
  {
    if args == [] then [] else ArgBytes(args[0]) + ArgsBytes(args[1..])
  }

  /** The file descriptors an argument list claims from the control channel. */
  function FdsOf(a: Arg): nat {
    match a case Fd => 1 case FdArray(_, count) => count case _ => 0
  }

  function FdTotal(args: seq<Arg>): nat {
    if args == [] then 0 else FdsOf(args[0]) + FdTotal(args[1..])
  }

  /** The offsets at which the arguments of a list starting at `from` begin. */
  function Starts(args: seq<Arg>, from: nat): (s: seq<nat>)
    requires ValidArgs(args)
    ensures |s| == |args|
  {
    if args == [] then [] else [from] + Starts(args[1..], from + |ArgBytes(args[0])|)
  }

  // ---- the reader -----------------------------------------------------------------------

  datatype TextEnd = TextEnd(text: Text, next: nat)
  datatype TextsEnd = TextsEnd(texts: seq<Text>, next: nat)
  datatype ArgEnd = ArgEnd(arg: Arg, next: nat)
  datatype ArgsEnd = ArgsEnd(args: seq<Arg>, next: nat)

  function ReadText(data: seq<byte>, i: nat): (r: Option<TextEnd>)
    ensures r.Some? ==> i < r.value.next <= |data|
  {
    match ReadCount(data, i)
    case None => None
    case Some(c) =>
      var from := i + c.width;
      if from + c.value > |data| then None
      else Some(TextEnd(Text(c.width, data[from..from + c.value]), from + c.value))
  }

  function ReadTexts(data: seq<byte>, i: nat, n: nat): (r: Option<TextsEnd>)
    ensures r.Some? ==> i <= r.value.next && (i <= |data| ==> r.value.next <= |data|) && |r.value.texts| == n
    decreases n
  {
    if n == 0 then Some(TextsEnd([], i))
    else
      match ReadText(data, i)
      case None => None
      case Some(t) =>
        match ReadTexts(data, t.next, n - 1)
        case None => None
        case Some(ts) => Some(TextsEnd([t.text] + ts.texts, ts.next))
  }

  function ReadWords(data: seq<byte>, i: nat, n: nat): (r: seq<u32>)
    requires i + 4 * n <= |data|
    ensures |r| == n
    decreases n
  {
    if n == 0 then [] else [WordAt(data, i)] + ReadWords(data, i + 4, n - 1)
  }

  function ReadArray(data: seq<byte>, i: nat): (r: Option<ArgEnd>)
    ensures r.Some? ==> i < r.value.next <= |data|
  {
    if i + 1 >= |data| then None
    else
      match ReadCount(data, i + 2)
      case None => None
      case Some(c) =>
        var kind, from := data[i + 1], i + 2 + c.width;
        if IsWord(kind) then
          if from + 4 * c.value > |data| then None
          else Some(ArgEnd(WordArray(kind, c.width, ReadWords(data, from, c.value)), from + 4 * c.value))
        else if kind == VARCHAR then
          match ReadTexts(data, from, c.value)
          case None => None
          case Some(ts) => Some(ArgEnd(TextArray(c.width, ts.texts), ts.next))
        else if kind == FD then Some(ArgEnd(FdArray(c.width, c.value), from))
        else None
  }

  function ReadArg(data: seq<byte>, i: nat): (r: Option<ArgEnd>)
    ensures r.Some? ==> i < r.value.next <= |data|
  {
    if i >= |data| then None
    else if IsWord(data[i]) then
      if i + 5 > |data| then None else Some(ArgEnd(Word(data[i], WordAt(data, i + 1)), i + 5))
    else if data[i] == VARCHAR then
      match ReadText(data, i + 1)
      case None => None
      case Some(t) => Some(ArgEnd(Varchar(t.text), t.next))
    else if data[i] == FD then Some(ArgEnd(Fd, i + 1))
    else if data[i] == ARRAY then ReadArray(data, i)
    else None
  }

  /** Reads arguments up to the END octet and returns the offset behind it. */
  function ReadArgs(data: seq<byte>, i: nat): (r: Option<ArgsEnd>)
    ensures r.Some? ==> i < r.value.next <= |data|
    decreases |data| - i
  {
    if i >= |data| then None
    else if data[i] == END then Some(ArgsEnd([], i + 1))
    else
      match ReadArg(data, i)
      case None => None
      case Some(a) =>
        match ReadArgs(data, a.next)
        case None => None
        case Some(rest) => Some(ArgsEnd([a.arg] + rest.args, rest.next))
  }

  // ---- the reader inverts the octets ----------------------------------------------------

  lemma TextIsRead(data: seq<byte>, i: nat, t: Text)
    requires ValidText(t) && At(data, i, TextBytes(t))
    ensures ReadText(data, i) == Some(TextEnd(t, i + |TextBytes(t)|))
  {
    AtSplit(data, i, Spell(|t.chars|, t.width), t.chars);
    AtSlice(data, i + t.width, t.chars);
    SpelledIsRead(data, i, |t.chars|, t.width, MAX_WIDTH);
  }

  lemma ReadTextIsThere(data: seq<byte>, i: nat)
    requires ReadText(data, i).Some?
    ensures var r := ReadText(data, i).value;
            ValidText(r.text) && At(data, i, TextBytes(r.text)) && r.next == i + |TextBytes(r.text)|
  {
    var r := ReadText(data, i).value;
    ReadIsSpelled(data, i, MAX_WIDTH);
    AtSlice(data, i + r.text.width, r.text.chars);
    AtSplit(data, i, Spell(|r.text.chars|, r.text.width), r.text.chars);
  }

  lemma TextsHead(texts: seq<Text>)
    requires forall t :: t in texts ==> ValidText(t)
    ensures texts == [] ==> TextsBytes(texts) == []
    ensures texts != [] ==>
              && (forall t :: t in texts[1..] ==> ValidText(t)) && ValidText(texts[0])
              && TextsBytes(texts) == TextBytes(texts[0]) + TextsBytes(texts[1..])
  {
    hide TextBytes, ValidText;
  }

  lemma {:induction false} TextsAreRead(data: seq<byte>, i: nat, texts: seq<Text>)
    requires (forall t :: t in texts ==> ValidText(t)) && At(data, i, TextsBytes(texts))
    ensures ReadTexts(data, i, |texts|) == Some(TextsEnd(texts, i + |TextsBytes(texts)|))
    decreases |texts|
  {
    hide At, Spell, ReadText, TextBytes, ValidText, TextsBytes;
    TextsHead(texts);
    if texts != [] {
      AtSplit(data, i, TextBytes(texts[0]), TextsBytes(texts[1..]));
      TextIsRead(data, i, texts[0]);
      TextsAreRead(data, i + |TextBytes(texts[0])|, texts[1..]);
      assert texts == [texts[0]] + texts[1..];
    }
  }

  lemma {:induction false} ReadTextsAreThere(data: seq<byte>, i: nat, n: nat)
    requires ReadTexts(data, i, n).Some? && i <= |data|
    ensures var r := ReadTexts(data, i, n).value;
            && (forall t :: t in r.texts ==> ValidText(t))
            && At(data, i, TextsBytes(r.texts))
            && r.next == i + |TextsBytes(r.texts)|
    decreases n
  {
    hide At, Spell, ReadText, TextBytes, ValidText;
    AtNothing(data, i);
    if n > 0 {
      var t := ReadText(data, i).value;
      var r := ReadTexts(data, i, n).value;
      ReadTextIsThere(data, i);
      ReadTextsAreThere(data, t.next, n - 1);
      assert r.texts[0] == t.text && r.texts[1..] == ReadTexts(data, t.next, n - 1).value.texts;
      AtSplit(data, i, TextBytes(t.text), TextsBytes(r.texts[1..]));
    }
  }

  lemma {:induction false} WordsAreRead(data: seq<byte>, i: nat, words: seq<u32>)
    requires At(data, i, WordsBytes(words))
    ensures ReadWords(data, i, |words|) == words
    decreases |words|
  {
    hide At, Le32, WordAt;
    if words != [] {
      AtSplit(data, i, Le32(words[0]), WordsBytes(words[1..]));
      WordAtLe32(data, i, words[0]);
      WordsAreRead(data, i + 4, words[1..]);
      assert words == [words[0]] + words[1..];
    }
  }

  lemma {:induction false} ReadWordsAreThere(data: seq<byte>, i: nat, n: nat)
    requires i + 4 * n <= |data|
    ensures At(data, i, WordsBytes(ReadWords(data, i, n)))
    decreases n
  {
    hide At, Le32, WordAt;
    AtNothing(data, i);
    if n > 0 {
      var r := ReadWords(data, i, n);
      Le32WordAt(data, i);
      ReadWordsAreThere(data, i + 4, n - 1);
      assert r[1..] == ReadWords(data, i + 4, n - 1);
      AtSplit(data, i, Le32(r[0]), WordsBytes(r[1..]));
    }
  }

  /** The common beginning of the three kinds of array. */
  lemma ArrayHeadIsRead(data: seq<byte>, i: nat, kind: byte, n: nat, width: nat, body: seq<byte>)
    requires ValidCount(n, width) && At(data, i, [ARRAY, kind] + Spell(n, width) + body)
    ensures i + 2 + width <= |data| && data[i + 1] == kind
    ensures ReadCount(data, i + 2) == Some(Count(n, width))
    ensures At(data, i + 2 + width, body)
  {
    AtSplit(data, i, [ARRAY, kind] + Spell(n, width), body);
    AtSplit(data, i, [ARRAY, kind], Spell(n, width));
    assert [ARRAY, kind][1] == kind;
    SpelledIsRead(data, i + 2, n, width, MAX_WIDTH);
  }

  /** The octets of an array of words and how many they are. */
  lemma WordArrayBytes(a: Arg)
    requires ValidArg(a) && a.WordArray?
    ensures IsWord(a.kind) && ValidCount(|a.words|, a.width)
    ensures ArgBytes(a) == [ARRAY, a.kind] + Spell(|a.words|, a.width) + WordsBytes(a.words)
    ensures |ArgBytes(a)| == 2 + a.width + 4 * |a.words|
  {
    hide Spell, WordsBytes;
  }

  lemma WordArrayIsRead(data: seq<byte>, i: nat, a: Arg)
    requires ValidArg(a) && a.WordArray? && At(data, i, ArgBytes(a))
    ensures ReadArray(data, i) == Some(ArgEnd(a, i + |ArgBytes(a)|))
  {
    hide At, Spell, ReadCount, ReadWords, ReadTexts, WordsBytes, ValidCount, ArgBytes, ValidArg, IsWord;
    WordArrayBytes(a);
    ArrayHeadIsRead(data, i, a.kind, |a.words|, a.width, WordsBytes(a.words));
    WordsAreRead(data, i + 2 + a.width, a.words);
  }

  lemma TextArrayIsRead(data: seq<byte>, i: nat, a: Arg)
    requires ValidArg(a) && a.TextArray? && At(data, i, ArgBytes(a))
    ensures ReadArray(data, i) == Some(ArgEnd(a, i + |ArgBytes(a)|))
  {
    hide At, Spell, ReadCount, ReadWords, ReadTexts, TextsBytes, ValidText, ValidCount;
    ArrayHeadIsRead(data, i, VARCHAR, |a.texts|, a.width, TextsBytes(a.texts));
    TextsAreRead(data, i + 2 + a.width, a.texts);
  }

  lemma FdArrayIsRead(data: seq<byte>, i: nat, a: Arg)
    requires ValidArg(a) && a.FdArray? && At(data, i, ArgBytes(a))
    ensures ReadArray(data, i) == Some(ArgEnd(a, i + |ArgBytes(a)|))
  {
    hide At, Spell, ReadCount, ReadWords, ReadTexts;
    assert [ARRAY, FD] + Spell(a.count, a.width) + [] == [ARRAY, FD] + Spell(a.count, a.width);
    ArrayHeadIsRead(data, i, FD, a.count, a.width, []);
  }

  lemma ArrayIsRead(data: seq<byte>, i: nat, a: Arg)
    requires ValidArg(a) && (a.WordArray? || a.TextArray? || a.FdArray?)
    requires At(data, i, ArgBytes(a))
    ensures ReadArray(data, i) == Some(ArgEnd(a, i + |ArgBytes(a)|))
  {
    hide At, ValidArg, ArgBytes, ReadArray;
    match a {
      case WordArray(_, _, _) => WordArrayIsRead(data, i, a);
      case TextArray(_, _) => TextArrayIsRead(data, i, a);
      case FdArray(_, _) => FdArrayIsRead(data, i, a);
    }
  }

  lemma PlainArgIsRead(data: seq<byte>, i: nat, a: Arg)
    requires ValidArg(a) && (a.Word? || a.Varchar?) && At(data, i, ArgBytes(a))
    ensures ReadArg(data, i) == Some(ArgEnd(a, i + |ArgBytes(a)|))
  {
    hide ReadText, TextBytes, Le32, ReadArray, ValidText;
    assert ArgBytes(a)[0] == data[i];
    if a.Word? {
      AtSplit(data, i, [a.kind], Le32(a.value));
      WordAtLe32(data, i + 1, a.value);
    } else {
      AtSplit(data, i, [VARCHAR], TextBytes(a.text));
      TextIsRead(data, i + 1, a.text);
    }
  }

  lemma ArgIsRead(data: seq<byte>, i: nat, a: Arg)
    requires ValidArg(a) && At(data, i, ArgBytes(a))
    ensures ReadArg(data, i) == Some(ArgEnd(a, i + |ArgBytes(a)|))
  {
    if a.Word? || a.Varchar? {
      PlainArgIsRead(data, i, a);
    } else {
      hide ReadText, ReadArray, ValidArg;
      assert ArgBytes(a)[0] == data[i];
      if !a.Fd? { ArrayIsRead(data, i, a); }
    }
  }

  lemma ArrayHeadIsThere(data: seq<byte>, i: nat, body: seq<byte>)
    requires i + 1 < |data| && data[i] == ARRAY && ReadCount(data, i + 2).Some?
    requires At(data, i + 2 + ReadCount(data, i + 2).value.width, body)
    ensures var c := ReadCount(data, i + 2).value;
            ValidCount(c.value, c.width) && At(data, i, [ARRAY, data[i + 1]] + Spell(c.value, c.width) + body)
  {
    var c := ReadCount(data, i + 2).value;
    ReadIsSpelled(data, i + 2, MAX_WIDTH);
    assert At(data, i, [ARRAY, data[i + 1]]);
    AtSplit(data, i, [ARRAY, data[i + 1]], Spell(c.value, c.width));
    AtSplit(data, i, [ARRAY, data[i + 1]] + Spell(c.value, c.width), body);
  }

  lemma ReadArrayIsThere(data: seq<byte>, i: nat)
    requires ReadArray(data, i).Some? && data[i] == ARRAY
    ensures var r := ReadArray(data, i).value;
            ValidArg(r.arg) && At(data, i, ArgBytes(r.arg)) && r.next == i + |ArgBytes(r.arg)|
  {
    hide At, Spell, ReadCount, ReadWords, ReadTexts, TextsBytes, WordsBytes, ValidText;
    var r := ReadArray(data, i).value;
    var c := ReadCount(data, i + 2).value;
    var kind, from := data[i + 1], i + 2 + c.width;
    if IsWord(kind) {
      ReadWordsAreThere(data, from, c.value);
      ArrayHeadIsThere(data, i, WordsBytes(r.arg.words));
    } else if kind == VARCHAR {
      ReadTextsAreThere(data, from, c.value);
      ArrayHeadIsThere(data, i, TextsBytes(r.arg.texts));
    } else {
      AtNothing(data, from);
      ArrayHeadIsThere(data, i, []);
      assert [ARRAY, FD] + Spell(c.value, c.width) + [] == [ARRAY, FD] + Spell(c.value, c.width);
    }
  }

  lemma ReadArgIsThere(data: seq<byte>, i: nat)
    requires ReadArg(data, i).Some?
    ensures var r := ReadArg(data, i).value;
            ValidArg(r.arg) && At(data, i, ArgBytes(r.arg)) && r.next == i + |ArgBytes(r.arg)|
  {
    var r := ReadArg(data, i).value;
    AtHead(data, i, data[i]);
    if IsWord(data[i]) {
      Le32WordAt(data, i + 1);
      AtSplit(data, i, [data[i]], Le32(r.arg.value));
    } else if data[i] == VARCHAR {
      ReadTextIsThere(data, i + 1);
      AtSplit(data, i, [VARCHAR], TextBytes(r.arg.text));
    } else if data[i] == ARRAY {
      ReadArrayIsThere(data, i);
    }
  }

  lemma MagicIsNotEnd(a: Arg)
    requires ValidArg(a)
    ensures Magic(a) != END
  {}

  lemma ReadArgMagic(data: seq<byte>, i: nat)
    requires ReadArg(data, i).Some?
    ensures var a := ReadArg(data, i).value.arg;
            && Magic(a) == data[i] && data[i] != END
            && (a.Word? <==> IsWord(data[i]))
            && (a.Word? ==> i + 5 <= |data| && a == Word(data[i], WordAt(data, i + 1)) && ReadArg(data, i).value.next == i + 5)
  {}

  /** An argument list is read back wherever it stands, ... */
  lemma {:induction false} ArgsAreRead(data: seq<byte>, i: nat, args: seq<Arg>)
    requires ValidArgs(args) && At(data, i, ArgsBytes(args) + [END])
    ensures ReadArgs(data, i) == Some(ArgsEnd(args, i + |ArgsBytes(args)| + 1))
    decreases |args|
  {
    hide At, ArgBytes, ReadArg, Magic, ValidArg;
    AtSplit(data, i, ArgsBytes(args), [END]);
    AtHead(data, i + |ArgsBytes(args)|, END);
    if args != [] {
      var a, rest := args[0], args[1..];
      AtSplit(data, i, ArgBytes(a), ArgsBytes(rest));
      var next := i + |ArgBytes(a)|;
      AtSplit(data, next, ArgsBytes(rest), [END]);
      ArgIsRead(data, i, a);
      AtHeadOf(data, i, ArgBytes(a));
      MagicIsNotEnd(a);
      ArgsAreRead(data, next, rest);
      assert args == [a] + rest;
    }
  }

  /** ... and whatever is read is a valid argument list that stands there, END octet included. */
  lemma {:induction false} ReadArgsAreThere(data: seq<byte>, i: nat)
    requires ReadArgs(data, i).Some?
    ensures var r := ReadArgs(data, i).value;
            && ValidArgs(r.args)
            && At(data, i, ArgsBytes(r.args) + [END])
            && r.next == i + |ArgsBytes(r.args)| + 1
            && data[r.next - 1] == END
    decreases |data| - i
  {
    hide At, ArgBytes, ReadArg, Magic, ValidArg;
    var r := ReadArgs(data, i).value;
    if data[i] == END {
      AtHead(data, i, END);
      assert ArgsBytes(r.args) + [END] == [END];
    } else {
      var a := ReadArg(data, i).value;
      ReadArgIsThere(data, i);
      ReadArgsAreThere(data, a.next);
      var rest := ReadArgs(data, a.next).value;
      assert r.args[0] == a.arg && r.args[1..] == rest.args;
      AtSplit(data, i, ArgBytes(a.arg), ArgsBytes(rest.args) + [END]);
      assert ArgsBytes(r.args) + [END] == ArgBytes(a.arg) + (ArgsBytes(rest.args) + [END]);
    }
  }

  /** Hence the octets determine the arguments: no list is spelled like the beginning of another. */
  lemma ArgsArePrefixFree(args: seq<Arg>, args': seq<Arg>, tail: seq<byte>)
    requires ValidArgs(args) && ValidArgs(args')
    requires ArgsBytes(args) + [END] + tail == ArgsBytes(args') + [END]
    ensures args == args' && tail == []
  {
    var data := ArgsBytes(args') + [END];
    assert At(data, 0, data);
    AtSplit(data, 0, ArgsBytes(args) + [END], tail);
    ArgsAreRead(data, 0, args);
    ArgsAreRead(data, 0, args');
  }

  /** Reading depends on the octets from the start up to the END alone. */
  lemma ReadArgsMoves(data: seq<byte>, i: nat, data': seq<byte>, i': nat)
    requires ReadArgs(data, i).Some?
    requires var r := ReadArgs(data, i).value; At(data', i', data[i..r.next])
    ensures var r := ReadArgs(data, i).value;
            ReadArgs(data', i') == Some(ArgsEnd(r.args, i' + (r.next - i)))
  {
    hide At, ReadArgs, ArgsBytes;
    ReadArgsAreThere(data, i);
    var r := ReadArgs(data, i).value;
    AtSlice(data, i, ArgsBytes(r.args) + [END]);
    ArgsAreRead(data', i', r.args);
  }
}
