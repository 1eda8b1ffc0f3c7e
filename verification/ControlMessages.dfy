/**
  The nine control messages: the receiving constructors, each with its own offsets, accept exactly
  the frames of the grammar, and the sending constructors spell them.
 */
module ControlMessages {
  import opened Bytes
  import opened VarInt
  import opened WireFormat
  import opened Marshal
  import opened Messages

  /** `NoLength` is a message whose m_len stayed 0; `Open` a count the source reads past its bounds. */
  datatype Parsed = Message(msg: Msg, len: nat) | NoLength | Open

  /** A parser for `code` finds a message exactly where the grammar has one, and its length. */
  ghost predicate ParsedAs(code: byte, data: seq<byte>, off: nat, r: Parsed) {
    && (r.Message? <==> off < |data| && data[off] == code && ReadFrame(data, off, []).Some?)
    && (r.Message? ==> ReadFrame(data, off, []) == Some(FrameEnd(r.msg, off + r.len)) && r.len > 0)
  }

  /** memcpy of a word into a vector. */
  function Store(data: seq<byte>, i: nat, w: u32): seq<byte>
    requires i + 4 <= |data|
  {
    var b := Le32(w);
    data[i := b[0]][i + 1 := b[1]][i + 2 := b[2]][i + 3 := b[3]]
  }

  predicate Has(data: seq<byte>, i: nat, b: byte) { i < |data| && data[i] == b }

  lemma OneField(a: Arg)
    requires ValidArg(a)
    ensures ArgsBytes([a]) == ArgBytes(a)
  {
    hide ArgBytes, ValidArg;
    assert [a][1..] == [];
    assert ArgBytes(a) + [] == ArgBytes(a);
  }

  lemma TwoFields(a: Arg, b: Arg)
    requires ValidArg(a) && ValidArg(b)
    ensures ArgsBytes([a, b]) == ArgBytes(a) + ArgBytes(b)
  {
    hide ArgBytes, ValidArg;
    OneField(b);
    assert [a, b][1..] == [b];
  }

  lemma ThreeFields(a: Arg, b: Arg, c: Arg)
    requires ValidArg(a) && ValidArg(b) && ValidArg(c)
    ensures ArgsBytes([a, b, c]) == ArgBytes(a) + (ArgBytes(b) + ArgBytes(c))
  {
    hide ArgBytes, ValidArg;
    TwoFields(b, c);
    assert [a, b, c][1..] == [b, c];
  }

  lemma EncodeOneField(m: Msg, a: Arg)
    requires Encodable(m) && ValidArg(a) && Fields(m) == [a]
    ensures Encode(m) == [Code(m)] + ArgBytes(a) + [END]
  {
    hide ArgBytes, ValidArg, Encodable, Fields, Code, ArgsBytes;
    OneField(a);
  }

  lemma ArrayFrame(code: byte, kind: byte, len: seq<byte>, body: seq<byte>)
    ensures [code] + ([ARRAY, kind] + len + body) + [END] == [code, ARRAY, kind] + len + body + [END]
  {}

  /** A message whose one field is an array. */
  lemma EncodeArrayField(m: Msg, code: byte, a: Arg, kind: byte, len: seq<byte>, body: seq<byte>)
    requires Encodable(m) && ValidArg(a) && Fields(m) == [a] && ArgBytes(a) == [ARRAY, kind] + len + body
    requires code == Code(m)
    ensures Encode(m) == [code, ARRAY, kind] + len + body + [END]
  {
    hide ArgBytes, ValidArg, Encodable, Fields, Code, Encode;
    EncodeOneField(m, a);
    ArrayFrame(Code(m), kind, len, body);
  }

  lemma UintBytes(w: u32)
    ensures ValidArg(Word(UINT, w)) && ArgBytes(Word(UINT, w)) == [UINT] + Le32(w)
  {}

  lemma NameBytes(s: seq<byte>)
    requires |s| < LIMIT
    ensures ValidArg(Varchar(Counted(s))) && ArgBytes(Varchar(Counted(s))) == [VARCHAR] + (SpellLow(|s|) + s)
  {
    hide SpellLow, TextBytes, ValidText;
    CountedIsValid(s);
  }

  // ---- Hello ------------------------------------------------------------------------------

  method ParseHello(data: seq<byte>, offset: nat) returns (r: Parsed)
    ensures ParsedAs(SUP, data, offset, r)
  {
    var expected: seq<byte> := [SUP, VARCHAR, 3, 0x56, 0x41, 0x58, END];
    HelloFrame(data, offset);
    if offset >= |data| { return NoLength; }
    if offset + |expected| > |data| { return Open; }
    if data[offset..offset + |expected|] != expected { return NoLength; }
    r := Message(Hello, |expected|);
  }

  lemma HelloFrame(data: seq<byte>, off: nat)
    ensures Encode(Hello) == [SUP, VARCHAR, 3, 0x56, 0x41, 0x58, END]
    ensures off < |data| && data[off] == SUP ==>
              (ReadFrame(data, off, []).Some? <==> off + 7 <= |data| && data[off..off + 7] == Encode(Hello))
    ensures off + 7 <= |data| && data[off..off + 7] == Encode(Hello) ==>
              data[off] == SUP && ReadFrame(data, off, []) == Some(FrameEnd(Hello, off + 7))
  {
    hide ReadArgs, ReadFrame;
    var t := Varchar(Text(1, VAX));
    assert Spell(3, 1) == [3 as byte];
    assert ArgBytes(t) == [VARCHAR] + ([3 as byte] + VAX);
    assert ArgsBytes([t]) == ArgBytes(t) + ArgsBytes([t][1..]);
    assert Encode(Hello) == [SUP, VARCHAR, 3, 0x56, 0x41, 0x58, END];
    AtSlice(data, off, Encode(Hello));
    if off + 7 <= |data| && data[off..off + 7] == Encode(Hello) {
      EncodedIsRead(data, off, Hello, []);
    }
    if off < |data| && data[off] == SUP && ReadFrame(data, off, []).Some? {
      OnlyHello(data, off);
      ReadFrameIsThere(data, off, []);
      assert [SUP] + ArgsBytes([t]) + [END] == Encode(Hello);
    }
  }

  lemma OnlyHello(data: seq<byte>, off: nat)
    requires off < |data| && data[off] == SUP && ReadFrame(data, off, []).Some?
    ensures ReadArgs(data, off + 1).value.args == [Varchar(Text(1, VAX))]
  {
    hide ReadArgs;
  }

  method EncodeHello() returns (data: seq<byte>)
    ensures data == Encode(Hello)
  {
    data := [SUP, VARCHAR, 3, 0x56, 0x41, 0x58, END];
    HelloFrame([], 0);
  }

  // ---- messages of fixed length -----------------------------------------------------------

  /** A frame of one UINT. */
  lemma OneWordFrame(code: byte, data: seq<byte>, off: nat)
    requires code == HANDSHAKE_ACK || code == ROUNDTRIP_REQUEST || code == ROUNDTRIP_DONE
    requires off < |data| && data[off] == code
    ensures ReadFrame(data, off, []).Some? <==> off + 7 <= |data| && data[off + 1] == UINT && data[off + 6] == END
    ensures ReadFrame(data, off, []).Some? ==>
              var w := WordAt(data, off + 2);
              ReadFrame(data, off, []) ==
              Some(FrameEnd(if code == HANDSHAKE_ACK then HandshakeAck(w)
                            else if code == ROUNDTRIP_REQUEST then RoundtripRequest(w) else RoundtripDone(w), off + 7))
  {
    hide ReadArgs, WordAt;
    NextField(data, off + 1);
    if Has(data, off + 1, UINT) {
      WordField(data, off + 1);
      NextField(data, off + 6);
    }
  }

  method ParseHandshakeAck(data: seq<byte>, offset: nat) returns (r: Parsed)
    ensures ParsedAs(HANDSHAKE_ACK, data, offset, r)
  {
    hide ReadFrame, WordAt;
    if !Has(data, offset, HANDSHAKE_ACK) { return NoLength; }
    OneWordFrame(HANDSHAKE_ACK, data, offset);
    if !Has(data, offset + 1, UINT) { return NoLength; }
    var needle: nat := 2;
    if !Has(data, offset + needle + 4, END) { return NoLength; }
    if |data| - offset - needle < 4 { return NoLength; }
    var version := WordAt(data, offset + needle);
    needle := needle + 4;
    r := Message(HandshakeAck(version), needle + 1);
  }

  method ParseRoundtripRequest(data: seq<byte>, offset: nat) returns (r: Parsed)
    ensures ParsedAs(ROUNDTRIP_REQUEST, data, offset, r)
  {
    hide ReadFrame, WordAt;
    if !Has(data, offset, ROUNDTRIP_REQUEST) { return NoLength; }
    OneWordFrame(ROUNDTRIP_REQUEST, data, offset);
    if !Has(data, offset + 1, UINT) { return NoLength; }
    if |data| - offset - 2 < 4 { return NoLength; }
    var seqNo := WordAt(data, offset + 2);
    if !Has(data, offset + 6, END) { return NoLength; }
    r := Message(RoundtripRequest(seqNo), 7);
  }

  method ParseRoundtripDone(data: seq<byte>, offset: nat) returns (r: Parsed)
    ensures ParsedAs(ROUNDTRIP_DONE, data, offset, r)
  {
    hide ReadFrame, WordAt;
    if !Has(data, offset, ROUNDTRIP_DONE) { return NoLength; }
    OneWordFrame(ROUNDTRIP_DONE, data, offset);
    if !Has(data, offset + 1, UINT) { return NoLength; }
    if |data| - offset - 2 < 4 { return NoLength; }
    var seqNo := WordAt(data, offset + 2);
    if !Has(data, offset + 6, END) { return NoLength; }
    r := Message(RoundtripDone(seqNo), 7);
  }

  lemma TwoWordFrame(data: seq<byte>, off: nat)
    requires off < |data| && data[off] == NEW_OBJECT
    ensures ReadFrame(data, off, []).Some? <==>
            off + 12 <= |data| && data[off + 1] == UINT && data[off + 6] == UINT && data[off + 11] == END
    ensures ReadFrame(data, off, []).Some? ==>
              ReadFrame(data, off, []) ==
              Some(FrameEnd(NewObject(WordAt(data, off + 2), WordAt(data, off + 7)), off + 12))
  {
    hide ReadArgs, WordAt;
    NextField(data, off + 1);
    if Has(data, off + 1, UINT) {
      WordField(data, off + 1);
      NextField(data, off + 6);
      if Has(data, off + 6, UINT) {
        WordField(data, off + 6);
        NextField(data, off + 11);
      }
    }
  }

  method ParseNewObject(data: seq<byte>, offset: nat) returns (r: Parsed)
    ensures ParsedAs(NEW_OBJECT, data, offset, r)
  {
    hide ReadFrame, WordAt;
    if !Has(data, offset, NEW_OBJECT) { return NoLength; }
    TwoWordFrame(data, offset);
    if !Has(data, offset + 1, UINT) { return NoLength; }
    if |data| - offset - 2 < 4 { return NoLength; }
    var id := WordAt(data, offset + 2);
    if !Has(data, offset + 6, UINT) || offset + 11 > |data| { return NoLength; }
    var seqNo := WordAt(data, offset + 7);
    if !Has(data, offset + 11, END) { return NoLength; }
    r := Message(NewObject(id, seqNo), 12);
  }

  lemma EncodeOneWord(m: Msg, w: u32)
    requires (m.HandshakeAck? && w == m.version) || (m.RoundtripRequest? && w == m.seqNo) || (m.RoundtripDone?
          && w == m.seqNo)
    ensures Encode(m) == [Code(m), UINT] + Le32(w) + [END]
  {
    hide Le32, ArgBytes, ArgsBytes, ValidArg;
    UintBytes(w);
    OneField(Word(UINT, w));
    assert Encode(m) == [Code(m)] + ([UINT] + Le32(w)) + [END];
  }

  method EncodeHandshakeAck(version: u32) returns (data: seq<byte>)
    ensures data == Encode(HandshakeAck(version))
  {
    hide Encode;
    data := [HANDSHAKE_ACK, UINT];
    data := data + [0, 0, 0, 0];
    data := Store(data, 2, version);
    data := data + [END];
    EncodeOneWord(HandshakeAck(version), version);
  }

  method EncodeRoundtripRequest(seqNo: u32) returns (data: seq<byte>)
    ensures data == Encode(RoundtripRequest(seqNo))
  {
    hide Encode;
    data := [ROUNDTRIP_REQUEST, UINT, 0, 0, 0, 0, END];
    data := Store(data, 2, seqNo);
    EncodeOneWord(RoundtripRequest(seqNo), seqNo);
  }

  method EncodeRoundtripDone(seqNo: u32) returns (data: seq<byte>)
    ensures data == Encode(RoundtripDone(seqNo))
  {
    hide Encode;
    data := [ROUNDTRIP_DONE, UINT, 0, 0, 0, 0, END];
    data := Store(data, 2, seqNo);
    EncodeOneWord(RoundtripDone(seqNo), seqNo);
  }

  lemma EncodeTwoWords(id: u32, seqNo: u32)
    ensures Encode(NewObject(id, seqNo)) == [NEW_OBJECT, UINT] + Le32(id) + [UINT] + Le32(seqNo) + [END]
  {
    hide Le32, ArgBytes, ArgsBytes, ValidArg;
    UintBytes(id);
    UintBytes(seqNo);
    TwoFields(Word(UINT, id), Word(UINT, seqNo));
    assert Encode(NewObject(id, seqNo)) == [NEW_OBJECT] + (([UINT] + Le32(id)) + ([UINT] + Le32(seqNo))) + [END];
  }

  method EncodeNewObject(seqNo: u32, id: u32) returns (data: seq<byte>)
    ensures data == Encode(NewObject(id, seqNo))
  {
    hide Encode;
    data := [NEW_OBJECT, UINT, 0, 0, 0, 0, UINT, 0, 0, 0, 0, END];
    data := Store(data, 2, id);
    data := Store(data, 7, seqNo);
    EncodeTwoWords(id, seqNo);
  }

  // ---- HandshakeBegin -----------------------------------------------------------------------

  lemma VersionsFrame(data: seq<byte>, off: nat)
    requires off < |data| && data[off] == HANDSHAKE_BEGIN
    ensures ReadFrame(data, off, []).Some? <==>
            && Has(data, off + 1, ARRAY) && Has(data, off + 2, UINT) && ReadCount(data, off + 3).Some?
            && (var c := ReadCount(data, off + 3).value;
                Has(data, off + 3 + c.width + 4 * c.value, END))
    ensures ReadFrame(data, off, []).Some? ==>
              var c := ReadCount(data, off + 3).value;
              ReadFrame(data, off, []) ==
              Some(FrameEnd(HandshakeBegin(ReadWords(data, off + 3 + c.width, c.value)),
                  off + 3 + c.width + 4 * c.value + 1))
  {
    hide ReadArgs, WordAt, ReadCount, ReadWords, ReadTexts;
    NextField(data, off + 1);
    if Has(data, off + 1, ARRAY) {
      ArrayField(data, off + 1);
      if ReadArray(data, off + 1).Some? { NextField(data, ReadArray(data, off + 1).value.next); }
    }
  }

  lemma {:induction false} WordOfWords(data: seq<byte>, i: nat, n: nat, k: nat)
    requires i + 4 * n <= |data| && k < n
    ensures |ReadWords(data, i, n)| == n && ReadWords(data, i, n)[k] == WordAt(data, i + 4 * k)
    decreases n
  {
    hide WordAt;
    if k > 0 { WordOfWords(data, i + 4, n - 1, k - 1); }
  }

  /** The loop that copies the words out; `at` throws for a word that begins behind the end. */
  method ParseVersions(data: seq<byte>, start: nat, nVers: nat) returns (ok: bool, versions: seq<u32>)
    ensures ok ==> start + 4 * nVers <= |data| && versions == ReadWords(data, start, nVers)
    ensures !ok ==> start + 4 * nVers > |data|
  {
    hide WordAt, ReadWords;
    versions := [];
    var i: nat := 0;
    while i < nVers && start + 4 * i + 4 <= |data|
      invariant i <= nVers && |versions| == i && start + 4 * i <= |data| + (if i == 0 then start else 0)
      invariant forall k :: 0 <= k < i ==> start + 4 * k + 4 <= |data| && versions[k] == WordAt(data, start + 4 * k)
    {
      versions := versions + [WordAt(data, start + 4 * i)];
      i := i + 1;
    }
    ok := start + 4 * nVers <= |data|;
    if ok {
      forall k | 0 <= k < nVers ensures versions[k] == ReadWords(data, start, nVers)[k] {
        WordOfWords(data, start, nVers, k);
      }
    }
  }

  method ParseHandshakeBegin(data: seq<byte>, offset: nat) returns (r: Parsed)
    ensures ParsedAs(HANDSHAKE_BEGIN, data, offset, r)
  {
    hide ReadFrame, WordAt, ReadCount, ParsedCount;
    if !Has(data, offset, HANDSHAKE_BEGIN) { return NoLength; }
    VersionsFrame(data, offset);
    if !Has(data, offset + 1, ARRAY) { return NoLength; }
    if !Has(data, offset + 2, UINT) { return NoLength; }
    var needle: nat := 3;
    var c := ParseVarInt(data, offset + needle, |data| - (offset + needle));
    ParsedInside(data, offset + needle, |data| - (offset + needle), c);
    if c.None? { return Open; }
    var nVers := c.value.value;
    needle := needle + c.value.width;
    var ok, versions := ParseVersions(data, offset + needle, nVers);
    if !ok { return NoLength; }
    needle := needle + nVers * 4;
    if !Has(data, offset + needle, END) { return NoLength; }
    r := Message(HandshakeBegin(versions), needle + 1);
  }

  /** What a size_t counts. */
  const SIZES := 0x1_0000_0000_0000_0000

  /** The octets of a list of versions; of its length the low 28 bits are spelled. */
  function VersionsLaid(versions: seq<u32>): seq<byte> {
    [HANDSHAKE_BEGIN, ARRAY, UINT] + SpellLow(|versions|) + WordsBytes(versions) + [END]
  }

  /** They are read as the list they were laid out for exactly if the length fits. */
  lemma VersionsArriveExactly(versions: seq<u32>)
    ensures var m, data := HandshakeBegin(versions), VersionsLaid(versions);
            && (ReadFrame(data, 0, []) == Some(FrameEnd(m, |data|)) <==> |versions| < LIMIT)
            && (|versions| < LIMIT ==> data == Encode(m))
  {
    hide VersionsLaid, Encode, ReadFrame, At;
    var m, data := HandshakeBegin(versions), VersionsLaid(versions);
    if |versions| < LIMIT {
      EncodeVersions(versions);
      LaidIsRead(m, data);
    } else if ReadFrame(data, 0, []) == Some(FrameEnd(m, |data|)) {
      ReadIsEncodable(data, 0, []);
    }
  }

  lemma LaidIsRead(m: Msg, data: seq<byte>)
    requires Encodable(m) && !m.Generic? && data == Encode(m)
    ensures ReadFrame(data, 0, []) == Some(FrameEnd(m, |data|))
  {
    hide Encode, ReadFrame, Encodable;
    AtSelf(data);
    EncodedIsRead(data, 0, m, []);
    assert FdsOfMsg(m) + [] == [];
  }

  lemma EncodeVersions(versions: seq<u32>)
    requires |versions| < LIMIT
    ensures Encodable(HandshakeBegin(versions)) && Encode(HandshakeBegin(versions)) == VersionsLaid(versions)
  {
    hide *;
    VersionsParts(versions);
    var a := VersionsField(versions);
    EncodeArrayField(HandshakeBegin(versions), HANDSHAKE_BEGIN, a, UINT, SpellLow(|versions|), WordsBytes(versions));
  }

  lemma VersionsParts(versions: seq<u32>)
    ensures VersionsLaid(versions) == [HANDSHAKE_BEGIN, ARRAY, UINT] + SpellLow(|versions|) + WordsBytes(versions) + [END]
  {}

  lemma VersionsField(versions: seq<u32>) returns (a: Arg)
    requires |versions| < LIMIT
    ensures Encodable(HandshakeBegin(versions)) && Fields(HandshakeBegin(versions)) == [a]
          && Code(HandshakeBegin(versions)) == HANDSHAKE_BEGIN
    ensures ValidArg(a) && ArgBytes(a) == [ARRAY, UINT] + SpellLow(|versions|) + WordsBytes(versions)
  {
    hide SpellLow, Spell, WordsBytes, MinWidth, Capacity, Le32, TextsBytes;
    a := WordArray(UINT, MinWidth(|versions|), versions);
    SpellShort(|versions|);
  }

  method EncodeHandshakeBegin(versions: seq<u32>) returns (data: seq<byte>)
    requires |versions| < SIZES
    ensures data == VersionsLaid(versions) && (|versions| < LIMIT ==> data == Encode(HandshakeBegin(versions)))
  {
    hide Encode, SpellLow, Le32;
    data := [HANDSHAKE_BEGIN, ARRAY, UINT];
    var len := EncodeLength(|versions|);
    data := data + len;
    ghost var head := data;
    var i := 0;
    assert versions[0..] == versions;
    while i < |versions|
      invariant 0 <= i <= |versions|
      invariant head + WordsBytes(versions) == data + WordsBytes(versions[i..])
    {
      assert versions[i..][1..] == versions[i + 1..];
      assert data + (Le32(versions[i]) + WordsBytes(versions[i + 1..]))
            == data + Le32(versions[i]) + WordsBytes(versions[i + 1..]);
      data := data + Le32(versions[i]);
      i := i + 1;
    }
    assert data + [] == data;
    data := data + [END];
    if |versions| < LIMIT { EncodeVersions(versions); }
  }

  // ---- HandshakeProtocols -------------------------------------------------------------------

  /** The names behind the count at `i`. */
  function NamesAt(data: seq<byte>, i: nat): Option<TextsEnd> {
    match ReadCount(data, i)
    case None => None
    case Some(c) => ReadTexts(data, i + c.width, c.value)
  }

  lemma NamesFrame(data: seq<byte>, off: nat)
    requires off < |data| && data[off] == HANDSHAKE_PROTOCOLS
    ensures ReadFrame(data, off, []).Some? <==>
            (Has(data, off + 1, ARRAY) && Has(data, off + 2, VARCHAR)
             && NamesAt(data, off + 3).Some? && Has(data, NamesAt(data, off + 3).value.next, END))
    ensures ReadFrame(data, off, []).Some? ==>
              var ts := NamesAt(data, off + 3).value;
              ReadFrame(data, off, []) == Some(FrameEnd(HandshakeProtocols(CharsOf(ts.texts)), ts.next + 1))
  {
    hide ReadArgs, WordAt, ReadCount, ReadWords, ReadTexts, CharsOf;
    NextField(data, off + 1);
    if Has(data, off + 1, ARRAY) {
      ArrayField(data, off + 1);
      if ReadArray(data, off + 1).Some? { NextField(data, ReadArray(data, off + 1).value.next); }
    }
  }

  lemma NameStep(data: seq<byte>, at: nat, n: nat)
    requires n > 0
    ensures ReadTexts(data, at, n).Some? ==> ReadText(data, at).Some?
    ensures ReadText(data, at).Some? ==>
              var t := ReadText(data, at).value;
              var rest := ReadTexts(data, t.next, n - 1);
              && (ReadTexts(data, at, n).Some? <==> rest.Some?)
              && (rest.Some? ==>
                    && rest.value.next == ReadTexts(data, at, n).value.next
                    && CharsOf(ReadTexts(data, at, n).value.texts) == [t.text.chars] + CharsOf(rest.value.texts))
  {
    hide ReadText;
    if ReadText(data, at).Some? {
      var t := ReadText(data, at).value;
      if ReadTexts(data, t.next, n - 1).Some? {
        var rest := ReadTexts(data, t.next, n - 1).value.texts;
        assert ([t.text] + rest)[1..] == rest;
      }
    }
  }

  lemma NamesDone(data: seq<byte>, at: nat)
    ensures ReadTexts(data, at, 0) == Some(TextsEnd([], at)) && CharsOf([]) == []
  {}

  lemma TextOfCount(data: seq<byte>, at: nat)
    ensures ReadText(data, at).Some? <==>
            (var c := ReadCount(data, at); c.Some? && at + c.value.width + c.value.value <= |data|)
    ensures ReadText(data, at).Some? ==>
              var c := ReadCount(data, at).value;
              var next := at + c.width + c.value;
              ReadText(data, at) == Some(TextEnd(Text(c.width, data[at + c.width..next]), next))
  {}

  /** What is left to be read after some names: the same end, and the names so far in front. */
  ghost predicate NamesSoFar(whole: Option<TextsEnd>, names: seq<seq<byte>>, rest: Option<TextsEnd>) {
    && (whole.Some? <==> rest.Some?)
    && (whole.Some? ==> whole.value.next == rest.value.next && CharsOf(whole.value.texts) == names + CharsOf(rest.value.texts))
  }

  method ParseHandshakeProtocols(data: seq<byte>, offset: nat) returns (r: Parsed)
    ensures ParsedAs(HANDSHAKE_PROTOCOLS, data, offset, r)
  {
    hide ReadFrame, ReadCount, ParsedCount, ReadText, ReadTexts, CharsOf;
    if !Has(data, offset, HANDSHAKE_PROTOCOLS) { return NoLength; }
    NamesFrame(data, offset);
    if !Has(data, offset + 1, ARRAY) { return NoLength; }
    if !Has(data, offset + 2, VARCHAR) { return NoLength; }
    var needle: nat := 3;
    var c := ParseVarInt(data, offset + needle, |data| - (offset + needle));
    ParsedInside(data, offset + needle, |data| - (offset + needle), c);
    if c.None? { return Open; }
    needle := needle + c.value.width;
    if offset + needle >= |data| { NoRoomForEnd(data, offset + 3); }
    var ok, names, len := ParseNames(data, offset + needle, c.value.value);
    if !ok { return if len == 0 then NoLength else Open; }
    needle := needle + len;
    if !Has(data, offset + needle, END) { return NoLength; }
    r := Message(HandshakeProtocols(names), needle + 1);
  }

  lemma NoRoomForEnd(data: seq<byte>, i: nat)
    requires ReadCount(data, i).Some? ==> i + ReadCount(data, i).value.width >= |data|
    ensures NamesAt(data, i).Some? ==> NamesAt(data, i).value.next >= |data|
  {
    hide ReadCount, ReadTexts;
  }

  /** The loop over the strings; on failure `len` is 0 for `at` throwing, 1 for a run left open. */
  method ParseNames(data: seq<byte>, start: nat, els: nat) returns (ok: bool, names: seq<seq<byte>>, len: nat)
    ensures ok ==>
              && ReadTexts(data, start, els).Some?
              && names == CharsOf(ReadTexts(data, start, els).value.texts)
              && start + len == ReadTexts(data, start, els).value.next
    ensures !ok ==> ReadTexts(data, start, els).None? || ReadTexts(data, start, els).value.next >= |data|
  {
    hide ReadCount, ParsedCount, ReadText, ReadTexts, CharsOf;
    names, len := [], 0;
    var i := 0;
    ghost var whole := ReadTexts(data, start, els);
    if whole.Some? { assert [] + CharsOf(whole.value.texts) == CharsOf(whole.value.texts); }
    while i < els
      invariant 0 <= i <= els && NamesSoFar(whole, names, ReadTexts(data, start + len, els - i))
    {
      var at := start + len;
      NameStep(data, at, els - i);
      TextOfCount(data, at);
      var s := ParseVarInt(data, at, |data| - at);
      ParsedInside(data, at, |data| - at, s);
      if s.None? { return false, [], 1; }
      var strLen, strLenLen := s.value.value, s.value.width;
      if at + strLenLen >= |data| {
        if whole.Some? { EmptyLast(data, at, els - i, whole.value.next); }
        return false, [], 0;
      }
      if at + strLenLen + strLen > |data| { return false, [], 1; }
      var name := data[at + strLenLen..at + strLenLen + strLen];
      ghost var rest := ReadTexts(data, at + strLenLen + strLen, els - i - 1);
      if rest.Some? { assert names + ([name] + CharsOf(rest.value.texts))
            == names + [name] + CharsOf(rest.value.texts); }
      names := names + [name];
      len := len + strLen + strLenLen;
      i := i + 1;
    }
    NamesDone(data, start + len);
    assert names + [] == names;
    ok := true;
  }

  /** A string whose count ends the buffer leaves no room for an END octet. */
  lemma EmptyLast(data: seq<byte>, at: nat, n: nat, next: nat)
    requires n > 0 && ReadTexts(data, at, n).Some? && ReadTexts(data, at, n).value.next == next
    requires ReadCount(data, at).Some? && at + ReadCount(data, at).value.width >= |data|
    ensures next >= |data|
  {
    hide ReadCount;
    var t := ReadText(data, at).value;
    assert t.next >= |data|;
    assert ReadTexts(data, t.next, n - 1).value.next >= t.next;
  }

  /** The octets of a list of names; of each length the low 28 bits are spelled. */
  function NamesLaid(names: seq<seq<byte>>): seq<byte> {
    [HANDSHAKE_PROTOCOLS, ARRAY, VARCHAR] + SpellLow(|names|) + PackTexts(names) + [END]
  }

  /** They are read as the list they were laid out for exactly if all lengths fit. */
  lemma NamesArriveExactly(names: seq<seq<byte>>)
    ensures var m, data := HandshakeProtocols(names), NamesLaid(names);
            && (ReadFrame(data, 0, []) == Some(FrameEnd(m, |data|))
                <==> |names| < LIMIT && forall n :: n in names ==> |n| < LIMIT)
            && (Encodable(m) ==> data == Encode(m))
  {
    hide NamesLaid, Encode, ReadFrame, At;
    var m, data := HandshakeProtocols(names), NamesLaid(names);
    if Encodable(m) {
      EncodeNames(names);
      LaidIsRead(m, data);
    } else if ReadFrame(data, 0, []) == Some(FrameEnd(m, |data|)) {
      ReadIsEncodable(data, 0, []);
    }
  }

  lemma EncodeNames(names: seq<seq<byte>>)
    requires Encodable(HandshakeProtocols(names))
    ensures Encode(HandshakeProtocols(names)) == NamesLaid(names)
  {
    hide *;
    NamesParts(names);
    var a := NamesField(names);
    EncodeArrayField(HandshakeProtocols(names), HANDSHAKE_PROTOCOLS, a, VARCHAR, SpellLow(|names|), PackTexts(names));
  }

  lemma NamesParts(names: seq<seq<byte>>)
    ensures NamesLaid(names) == [HANDSHAKE_PROTOCOLS, ARRAY, VARCHAR] + SpellLow(|names|) + PackTexts(names) + [END]
  {}

  lemma NamesField(names: seq<seq<byte>>) returns (a: Arg)
    requires Encodable(HandshakeProtocols(names))
    ensures Fields(HandshakeProtocols(names)) == [a] && Code(HandshakeProtocols(names)) == HANDSHAKE_PROTOCOLS
    ensures ValidArg(a) && ArgBytes(a) == [ARRAY, VARCHAR] + SpellLow(|names|) + PackTexts(names)
  {
    hide SpellLow, Spell, TextsBytes, PackTexts, MinWidth, CountedAll, ValidText, Capacity;
    a := TextArray(MinWidth(|names|), CountedAll(names));
    SpellShort(|names|);
    CountedAllIsValid(names);
  }

  method EncodeHandshakeProtocols(names: seq<seq<byte>>) returns (data: seq<byte>)
    requires |names| < SIZES && forall n :: n in names ==> |n| < SIZES
    ensures data == NamesLaid(names)
    ensures Encodable(HandshakeProtocols(names)) ==> data == Encode(HandshakeProtocols(names))
  {
    hide Encode, SpellLow;
    data := [HANDSHAKE_PROTOCOLS, ARRAY, VARCHAR];
    var len := EncodeLength(|names|);
    data := data + len;
    ghost var head := data;
    var i := 0;
    assert names[0..] == names;
    while i < |names|
      invariant 0 <= i <= |names|
      invariant head + PackTexts(names) == data + PackTexts(names[i..])
    {
      var p := names[i];
      assert p in names;
      var pl := EncodeLength(|p|);
      assert names[i..][1..] == names[i + 1..] && names[i..][0] == p;
      assert data + (pl + p + PackTexts(names[i + 1..])) == data + pl + p + PackTexts(names[i + 1..]);
      data := data + pl;
      data := data + p;
      i := i + 1;
    }
    assert data + [] == data;
    data := data + [END];
    if Encodable(HandshakeProtocols(names)) { EncodeNames(names); }
  }

  // ---- BindProtocol -------------------------------------------------------------------------

  lemma BindFrame(data: seq<byte>, off: nat)
    requires off < |data| && data[off] == BIND_PROTOCOL
    ensures ReadFrame(data, off, []).Some? <==>
            && Has(data, off + 1, UINT) && Has(data, off + 6, VARCHAR) && ReadText(data, off + 7).Some?
            && (var p := ReadText(data, off + 7).value.next;
                Has(data, p, UINT) && Has(data, p + 5, END) && WordAt(data, p + 1) != 0)
    ensures ReadFrame(data, off, []).Some? ==>
              var t := ReadText(data, off + 7).value;
              ReadFrame(data, off, []) ==
              Some(FrameEnd(BindProtocol(t.text.chars, WordAt(data, off + 2), WordAt(data, t.next + 1)), t.next + 6))
  {
    hide ReadArgs, WordAt, ReadText;
    NextField(data, off + 1);
    if Has(data, off + 1, UINT) {
      WordField(data, off + 1);
      NextField(data, off + 6);
      if Has(data, off + 6, VARCHAR) {
        TextField(data, off + 6);
        if ReadText(data, off + 7).Some? {
          var p := ReadText(data, off + 7).value.next;
          NextField(data, p);
          if Has(data, p, UINT) {
            WordField(data, p);
            NextField(data, p + 5);
          }
        }
      }
    }
  }

  method ParseBindProtocol(data: seq<byte>, offset: nat) returns (r: Parsed)
    ensures ParsedAs(BIND_PROTOCOL, data, offset, r)
  {
    hide ReadFrame, WordAt, ReadCount, ReadText, ParsedCount;
    if !Has(data, offset, BIND_PROTOCOL) { return NoLength; }
    BindFrame(data, offset);
    if !Has(data, offset + 1, UINT) { return NoLength; }
    if !Has(data, offset + 6, VARCHAR) { return NoLength; }
    var seqNo := WordAt(data, offset + 2);
    var needle: nat := 7;
    TextOfCount(data, offset + needle);
    var c := ParseVarInt(data, offset + needle, |data| - (offset + needle));
    ParsedInside(data, offset + needle, |data| - (offset + needle), c);
    if c.None? { return Open; }
    var strLen := c.value.value;
    needle := needle + c.value.width;
    if offset + needle >= |data| { return NoLength; }
    if offset + needle + strLen > |data| { return Open; }
    var protocol := data[offset + needle..offset + needle + strLen];
    needle := needle + strLen;
    if !Has(data, offset + needle, UINT) { return NoLength; }
    if offset + needle + 5 > |data| { return NoLength; }
    var version := WordAt(data, offset + needle + 1);
    if version == 0 { return NoLength; }
    needle := needle + 5;
    if !Has(data, offset + needle, END) { return NoLength; }
    r := Message(BindProtocol(protocol, seqNo, version), needle + 1);
  }

  /** The octets of a bind; of the name's length the low 28 bits are spelled. */
  function BindLaid(protocol: seq<byte>, seqNo: u32, version: u32): seq<byte> {
    [BIND_PROTOCOL, UINT] + Le32(seqNo) + [VARCHAR] + SpellLow(|protocol|) + protocol + [UINT] + Le32(version) + [END]
  }

  /** They are read as the bind they were laid out for exactly if the length fits and the version is not 0. */
  lemma BindArrivesExactly(protocol: seq<byte>, seqNo: u32, version: u32)
    ensures var m, data := BindProtocol(protocol, seqNo, version), BindLaid(protocol, seqNo, version);
            && (ReadFrame(data, 0, []) == Some(FrameEnd(m, |data|)) <==> |protocol| < LIMIT && version != 0)
            && (|protocol| < LIMIT ==> Postable(m) && data == Octets(m))
  {
    hide BindLaid, Octets, Encode, ReadFrame, At;
    var m, data := BindProtocol(protocol, seqNo, version), BindLaid(protocol, seqNo, version);
    if |protocol| < LIMIT { EncodeBind(protocol, seqNo, version); }
    if Encodable(m) {
      LaidIsRead(m, data);
    } else if ReadFrame(data, 0, []) == Some(FrameEnd(m, |data|)) {
      ReadIsEncodable(data, 0, []);
    }
  }

  lemma EncodeBind(protocol: seq<byte>, seqNo: u32, version: u32)
    requires |protocol| < LIMIT
    ensures Postable(BindProtocol(protocol, seqNo, version))
    ensures Octets(BindProtocol(protocol, seqNo, version)) == BindLaid(protocol, seqNo, version)
  {
    hide Le32, SpellLow, ArgBytes, ArgsBytes, ValidArg;
    UintBytes(seqNo);
    UintBytes(version);
    NameBytes(protocol);
    ThreeFields(Word(UINT, seqNo), Varchar(Counted(protocol)), Word(UINT, version));
    assert Octets(BindProtocol(protocol, seqNo, version)) ==
           [BIND_PROTOCOL] + (([UINT] + Le32(seqNo)) + (([VARCHAR] + (SpellLow(|protocol|) + protocol)) + ([UINT]
               + Le32(version)))) + [END];
  }

  method EncodeBindProtocol(protocol: seq<byte>, seqNo: u32, version: u32) returns (data: seq<byte>)
    requires |protocol| < SIZES
    ensures data == BindLaid(protocol, seqNo, version)
    ensures |protocol| < LIMIT ==>
              Postable(BindProtocol(protocol, seqNo, version)) && data == Octets(BindProtocol(protocol, seqNo, version))
  {
    hide Encode, Octets, SpellLow;
    data := [BIND_PROTOCOL, UINT, 0, 0, 0, 0];
    data := Store(data, 2, seqNo);
    assert data == [BIND_PROTOCOL, UINT] + Le32(seqNo);
    data := data + [VARCHAR];
    var len := EncodeLength(|protocol|);
    data := data + len;
    data := data + protocol;
    ghost var head := data;
    data := StoreLast(data + [UINT, 0, 0, 0, 0], version, head);
    data := data + [END];
    if |protocol| < LIMIT { EncodeBind(protocol, seqNo, version); }
  }

  /** memcpy over the last four octets. */
  method StoreLast(data: seq<byte>, w: u32, ghost head: seq<byte>) returns (r: seq<byte>)
    requires data == head + [UINT, 0, 0, 0, 0]
    ensures r == head + [UINT] + Le32(w)
  {
    hide Le32;
    r := Store(data, |data| - 4, w);
  }

  // ---- FatalProtocolError -------------------------------------------------------------------

  lemma FatalFrame(data: seq<byte>, off: nat)
    requires off < |data| && data[off] == FATAL_PROTOCOL_ERROR
    ensures ReadFrame(data, off, []).Some? <==>
            && Has(data, off + 1, UINT) && Has(data, off + 6, UINT) && Has(data, off + 11, VARCHAR)
            && ReadText(data, off + 12).Some? && Has(data, ReadText(data, off + 12).value.next, END)
    ensures ReadFrame(data, off, []).Some? ==>
              var t := ReadText(data, off + 12).value;
              ReadFrame(data, off, []) ==
              Some(FrameEnd(FatalError(WordAt(data, off + 2), WordAt(data, off + 7), t.text.chars), t.next + 1))
  {
    hide ReadArgs, WordAt, ReadText;
    NextField(data, off + 1);
    if Has(data, off + 1, UINT) {
      WordField(data, off + 1);
      NextField(data, off + 6);
      if Has(data, off + 6, UINT) {
        WordField(data, off + 6);
        NextField(data, off + 11);
        if Has(data, off + 11, VARCHAR) {
          TextField(data, off + 11);
          if ReadText(data, off + 12).Some? { NextField(data, ReadText(data, off + 12).value.next); }
        }
      }
    }
  }

  method ParseFatalError(data: seq<byte>, offset: nat) returns (r: Parsed)
    ensures ParsedAs(FATAL_PROTOCOL_ERROR, data, offset, r)
  {
    hide ReadFrame, WordAt, ReadCount, ReadText, ParsedCount;
    if !Has(data, offset, FATAL_PROTOCOL_ERROR) { return NoLength; }
    FatalFrame(data, offset);
    if !Has(data, offset + 1, UINT) { return NoLength; }
    if !Has(data, offset + 6, UINT) { return NoLength; }
    var objectId := WordAt(data, offset + 2);
    if !Has(data, offset + 11, VARCHAR) { return NoLength; }
    var errorId := WordAt(data, offset + 7);
    var needle: nat := 12;
    TextOfCount(data, offset + needle);
    var c := ParseVarInt(data, offset + needle, |data| - (offset + needle));
    ParsedInside(data, offset + needle, |data| - (offset + needle), c);
    if c.None? { return Open; }
    var strLen := c.value.value;
    needle := needle + c.value.width;
    if offset + needle + strLen > |data| { return Open; }
    var text := data[offset + needle..offset + needle + strLen];
    needle := needle + strLen;
    if !Has(data, offset + needle, END) { return NoLength; }
    r := Message(FatalError(objectId, errorId, text), needle + 1);
  }

  /** The octets of a fatal error; of the text's length the low 28 bits are spelled. */
  function FatalLaid(objectId: u32, errorId: u32, text: seq<byte>): seq<byte> {
    [FATAL_PROTOCOL_ERROR, UINT] + Le32(objectId) + [UINT] + Le32(errorId) + [VARCHAR] + SpellLow(|text|) + text + [END]
  }

  /** They are read as the error they were laid out for exactly if the length fits. */
  lemma FatalArrivesExactly(objectId: u32, errorId: u32, text: seq<byte>)
    ensures var m, data := FatalError(objectId, errorId, text), FatalLaid(objectId, errorId, text);
            && (ReadFrame(data, 0, []) == Some(FrameEnd(m, |data|)) <==> |text| < LIMIT)
            && (|text| < LIMIT ==> data == Encode(m))
  {
    hide FatalLaid, Encode, ReadFrame, At;
    var m, data := FatalError(objectId, errorId, text), FatalLaid(objectId, errorId, text);
    if |text| < LIMIT {
      EncodeFatal(objectId, errorId, text);
      LaidIsRead(m, data);
    } else if ReadFrame(data, 0, []) == Some(FrameEnd(m, |data|)) {
      ReadIsEncodable(data, 0, []);
    }
  }

  lemma EncodeFatal(objectId: u32, errorId: u32, text: seq<byte>)
    requires |text| < LIMIT
    ensures Encode(FatalError(objectId, errorId, text)) == FatalLaid(objectId, errorId, text)
  {
    hide Le32, SpellLow, ArgBytes, ArgsBytes, ValidArg;
    UintBytes(objectId);
    UintBytes(errorId);
    NameBytes(text);
    ThreeFields(Word(UINT, objectId), Word(UINT, errorId), Varchar(Counted(text)));
    assert Encode(FatalError(objectId, errorId, text)) ==
           [FATAL_PROTOCOL_ERROR] + (([UINT] + Le32(objectId)) + (([UINT] + Le32(errorId)) + ([VARCHAR]
               + (SpellLow(|text|) + text)))) + [END];
  }

  /** A null object leaves the object id 0. */
  method EncodeFatalError(object_: Option<u32>, errorId: u32, text: seq<byte>) returns (data: seq<byte>)
    requires |text| < SIZES
    ensures var objectId: u32 := match object_ case None => 0 case Some(id) => id;
            && data == FatalLaid(objectId, errorId, text)
            && (|text| < LIMIT ==> data == Encode(FatalError(objectId, errorId, text)))
  {
    hide Encode, SpellLow;
    data := [FATAL_PROTOCOL_ERROR, UINT, 0, 0, 0, 0, UINT, 0, 0, 0, 0, VARCHAR];
    if object_.Some? { data := Store(data, 2, object_.value); }
    data := Store(data, 7, errorId);
    ghost var objectId: u32 := match object_ case None => 0 case Some(id) => id;
    assert data == [FATAL_PROTOCOL_ERROR, UINT] + Le32(objectId) + [UINT] + Le32(errorId) + [VARCHAR];
    var len := EncodeLength(|text|);
    data := data + len;
    data := data + text;
    data := data + [END];
    if |text| < LIMIT { EncodeFatal(objectId, errorId, text); }
  }
}
