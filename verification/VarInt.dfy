/**
  The variable-length counts of the wire format: unsigned LEB128 (section 7.6 of DWARF 5),
  least significant group first, at most four octets long.
 */
module VarInt {
  import opened Bytes

  datatype Count = Count(value: nat, width: nat)

  const MAX_WIDTH := 4
  const LIMIT := 0x1000_0000 // 2^28

  /** 128 to the power `w`: the counts that fit into `w` groups are those below it. */
  function Capacity(w: nat): nat {
    if w == 0 then 1 else 128 * Capacity(w - 1)
  }

  /** The reference reader: the groups up to the first octet without the continuation bit. */
  function ReadCount(data: seq<byte>, off: nat, groups: nat := MAX_WIDTH): (r: Option<Count>)
    ensures r.Some? ==>
              && 1 <= r.value.width <= groups
              && off + r.value.width <= |data|
              && r.value.value < Capacity(r.value.width)
    decreases groups
  {
    if groups == 0 || off >= |data| then None
    else if data[off] < 128 then Some(Count(data[off], 1))
    else
      match ReadCount(data, off + 1, groups - 1)
      case None => None
      case Some(c) => Some(Count(data[off] - 128 + 128 * c.value, c.width + 1))
  }

  /** The octets that spell `value` in exactly `width` groups. */
  function Spell(value: nat, width: nat): (bytes: seq<byte>)
    requires 1 <= width && value < Capacity(width)
    ensures |bytes| == width
  {
    if width == 1 then [value] else [value % 128 + 128] + Spell(value / 128, width - 1)
  }

  /** The least number of groups that hold `value`. */
  function MinWidth(value: nat): (w: nat)
    ensures 1 <= w && value < Capacity(w)
    ensures w > 1 ==> Capacity(w - 1) <= value
  {
    if value < 128 then 1 else 1 + MinWidth(value / 128)
  }

  lemma {:induction false} MinWidthLeast(value: nat, w: nat)
    requires 1 <= w && value < Capacity(w)
    ensures MinWidth(value) <= w
  {
    if value >= 128 { MinWidthLeast(value / 128, w - 1); }
  }

  /** Whatever is read was spelled there, ... */
  lemma {:induction false} ReadIsSpelled(data: seq<byte>, off: nat, groups: nat)
    requires ReadCount(data, off, groups).Some?
    ensures var c := ReadCount(data, off, groups).value; At(data, off, Spell(c.value, c.width))
    decreases groups
  {
    var c := ReadCount(data, off, groups).value;
    if data[off] < 128 {
      AtHead(data, off, data[off]);
    } else {
      ReadIsSpelled(data, off + 1, groups - 1);
      var d := ReadCount(data, off + 1, groups - 1).value;
      AtHead(data, off, data[off]);
      AtSplit(data, off, [data[off]], Spell(d.value, d.width));
      assert c.value / 128 == d.value && c.value % 128 + 128 == data[off];
    }
  }

  /** ... and whatever is spelled is read, whatever stands before and after it. */
  lemma {:induction false} SpelledIsRead(data: seq<byte>, off: nat, value: nat, width: nat, groups: nat)
    requires 1 <= width <= groups && value < Capacity(width)
    requires At(data, off, Spell(value, width))
    ensures ReadCount(data, off, groups) == Some(Count(value, width))
    decreases groups
  {
    if width == 1 {
      AtHead(data, off, value);
    } else {
      AtSplit(data, off, [value % 128 + 128], Spell(value / 128, width - 1));
      AtHead(data, off, value % 128 + 128);
      SpelledIsRead(data, off + 1, value / 128, width - 1, groups - 1);
    }
  }

  /** No spelling is a proper prefix of another one. */
  lemma SpellingsArePrefixFree(v: nat, w: nat, v': nat, w': nat)
    requires 1 <= w <= MAX_WIDTH && v < Capacity(w)
    requires 1 <= w' <= MAX_WIDTH && v' < Capacity(w')
    requires Spell(v, w) <= Spell(v', w')
    ensures v == v' && w == w'
  {
    var data := Spell(v', w');
    assert data[0..w] == Spell(v, w);
    assert data[0..w'] == data;
    SpelledIsRead(data, 0, v, w, MAX_WIDTH);
    SpelledIsRead(data, 0, v', w', MAX_WIDTH);
  }

  /** A spelling is minimal when it has one group or a non-zero last group. */
  ghost predicate Minimal(bytes: seq<byte>) {
    |bytes| == 1 || (|bytes| > 1 && bytes[|bytes| - 1] != 0)
  }

  lemma {:induction false} MinimalIffMinWidth(v: nat, w: nat)
    requires 1 <= w && v < Capacity(w)
    ensures Minimal(Spell(v, w)) <==> w == MinWidth(v)
  {
    if w == 1 {
    } else if w == 2 {
      assert Spell(v, w)[1] == v / 128;
    } else {
      MinimalIffMinWidth(v / 128, w - 1);
      assert Spell(v, w)[w - 1] == Spell(v / 128, w - 1)[w - 2];
      if v < 128 { MinWidthLeast(0, w - 1); }
    }
  }

  // ---- parseVarInt ----------------------------------------------------------------------

  /** `x << (7 * n)`. */
  function Shift7(x: nat, n: nat): nat {
    if n == 0 then x else 128 * Shift7(x, n - 1)
  }

  /** What the loop has summed up after `n` octets. */
  ghost function Rolling(data: seq<byte>, off: nat, n: nat): nat
    requires off + n <= |data|
  {
    if n == 0 then 0 else Rolling(data, off, n - 1) + Shift7(data[off + n - 1] % 128, n - 1)
  }

  lemma {:induction false} Shift7Step(x: nat, n: nat)
    ensures Shift7(x, n + 1) == 128 * Shift7(x, n)
  {}

  lemma {:induction false} RollingFront(data: seq<byte>, off: nat, n: nat)
    requires 1 <= n && off + n <= |data|
    ensures Rolling(data, off, n) == data[off] % 128 + 128 * Rolling(data, off + 1, n - 1)
  {
    if n > 1 {
      RollingFront(data, off, n - 1);
      Shift7Step(data[off + n - 1] % 128, n - 2);
      assert data[off + 1 + (n - 2)] == data[off + n - 1];
    } else {
      assert Rolling(data, off, 0) == 0;
      assert Rolling(data, off + 1, 0) == 0;
    }
  }

  /** The reference value is the sum the loop forms. */
  lemma {:induction false} ReadIsRolling(data: seq<byte>, off: nat, n: nat, groups: nat)
    requires 1 <= n <= groups && off + n <= |data|
    requires forall k :: off <= k < off + n - 1 ==> data[k] >= 128
    requires data[off + n - 1] < 128
    ensures ReadCount(data, off, groups) == Some(Count(Rolling(data, off, n), n))
    decreases groups
  {
    RollingFront(data, off, n);
    if n > 1 {
      ReadIsRolling(data, off + 1, n - 1, groups - 1);
    } else {
      assert Rolling(data, off + 1, 0) == 0;
    }
  }

  lemma {:induction false} NoReadPastContinuation(data: seq<byte>, off: nat, n: nat, groups: nat)
    requires off + n <= |data|
    requires forall k :: off <= k < off + n ==> data[k] >= 128
    requires n >= groups || off + n == |data|
    ensures ReadCount(data, off, groups).None?
    decreases groups
  {
    if groups > 0 && n > 0 { NoReadPastContinuation(data, off + 1, n - 1, groups - 1); }
  }

  /** A count read here is the one `ReadCount` finds, or the span ended inside it. */
  ghost predicate ParsedCount(data: seq<byte>, off: nat, span: int, r: Option<Count>) {
    && (r.None? ==> ReadCount(data, off).None?)
    && (r.Some? ==>
          && 1 <= r.value.width <= MAX_WIDTH
          && off + r.value.width <= |data|
          && r.value.value == Rolling(data, off, r.value.width)
          && (r == ReadCount(data, off)
              || (r.value.width >= span && forall k :: off <= k < off + r.value.width ==> data[k] >= 128)))
  }

  /**
    The do-while loop of the span overload. `None` stands for the runs the source leaves open:
    it would index past the vector behind the span, or shift a group past bit 27 of an int.
   */
  method ParseVarInt(data: seq<byte>, off: nat, span: int) returns (r: Option<Count>)
    ensures ParsedCount(data, off, span, r)
  {
    var rolling, i := 0, 0;
    while true
      invariant 0 <= i <= MAX_WIDTH && off + i <= |data| + (if i == 0 then off else 0)
      invariant i > 0 ==> off + i <= |data|
      invariant i > 0 ==> rolling == Rolling(data, off, i)
      invariant i == 0 ==> rolling == 0
      invariant i > 0 ==> forall k :: off <= k < off + i ==> data[k] >= 128
      decreases MAX_WIDTH - i
    {
      if off + i >= |data| || i >= MAX_WIDTH {
        if i > 0 { NoReadPastContinuation(data, off, i, MAX_WIDTH); }
        return None;
      }
      rolling := rolling + Shift7(data[off + i] % 128, i);
      assert Rolling(data, off, 0) == 0;
      i := i + 1;
      if data[off + i - 1] < 128 {
        ReadIsRolling(data, off, i, MAX_WIDTH);
        return Some(Count(rolling, i));
      }
      if i >= span {
        return Some(Count(rolling, i));
      }
    }
  }

  /** With a span that reaches the end of the vector, a count cut off by that end is the one difference. */
  lemma ParsedInside(data: seq<byte>, off: nat, span: int, r: Option<Count>)
    requires ParsedCount(data, off, span, r) && off + span >= |data|
    ensures ReadCount(data, off).Some? ==> r == ReadCount(data, off)
    ensures r.Some? && ReadCount(data, off).None? ==> off + r.value.width == |data|
  {
    if r.Some? && r != ReadCount(data, off) {
      NoReadPastContinuation(data, off, r.value.width, MAX_WIDTH);
    }
  }

  // ---- encodeVarInt ---------------------------------------------------------------------

  /** `num << n` and `num >> n` on a 64-bit `size_t`, for the shift amounts used. */
  function Shl64(num: nat, factor: nat): nat { num * factor % 0x1_0000_0000_0000_0000 }

  /** `(uint8_t)x | 0x80`. */
  function Group(x: nat): byte { x % 128 + 128 }

  lemma MulAssoc(a: int, b: int, c: int)
    ensures a * (b * c) == a * b * c && a * b * c == a * c * b
  {}

  lemma MulOverAdd(a: int, b: int, c: int)
    ensures (a + b) * c == a * c + b * c
  {}

  lemma QuotientIsUnique(x: nat, q: nat, r: nat, m: nat)
    requires x == q * m + r && r < m
    ensures x % m == r && x / m == q
  {
    var d: int := q - x / m;
    MulOverAdd(q, -(x / m), m);
    assert d * m == x % m - r;
    assert d >= 1 ==> d * m >= m;
    assert d <= -1 ==> d * m <= -1 * m;
  }

  /** Shifting left by n drops the top n bits of 64. */
  lemma ShiftDropsTop(num: nat, factor: nat, keep: nat)
    requires factor > 0 && factor * keep == 0x1_0000_0000_0000_0000
    ensures Shl64(num, factor) == num % keep * factor
  {
    var q, r := num / keep, num % keep;
    MulOverAdd(q * keep, r, factor);
    MulAssoc(q, factor, keep);
    assert r * factor < keep * factor;
    QuotientIsUnique(num * factor, q, r * factor, 0x1_0000_0000_0000_0000);
  }

  /** `num` cut off at `div * k` and divided by `div`, in terms of its digits. */
  lemma DigitsOfCut(num: nat, q: nat, a: nat, b: nat, div: nat, k: nat, keep: nat)
    requires b < div && a < k && keep == div * k && num == q * keep + (a * div + b)
    ensures num / div == q * k + a && num / div % k == a
  {
    MulAssoc(q, div, k);
    MulOverAdd(q * k, a, div);
    QuotientIsUnique(num, q * k + a, b, div);
    QuotientIsUnique(q * k + a, q, a, k);
  }

  lemma Divide(x: nat, m: nat) returns (q: nat, r: nat)
    requires m > 0
    ensures x == q * m + r && r < m
  {
    q, r := x / m, x % m;
  }

  lemma DivideTheCut(num: nat, div: nat, k: nat, keep: nat)
    requires div > 0 && k > 0 && keep == div * k > 0
    ensures num % keep / div == num / div % k
  {
    var q, r := Divide(num, keep);
    var a, b := Divide(r, div);
    QuotientBelow(a, b, div, k, keep);
    QuotientIsUnique(num, q, r, keep);
    QuotientIsUnique(r, a, b, div);
    DigitsOfCut(num, q, a, b, div, k, keep);
  }

  lemma QuotientBelow(a: nat, b: nat, div: nat, k: nat, keep: nat)
    requires div > 0 && keep == div * k && a * div + b < keep
    ensures a < k
  {
    assert a >= k ==> a * div >= k * div;
  }

  lemma LowestGroup(x: nat, k: nat)
    requires k > 0
    ensures x % (128 * k) % 128 == x % 128
  {
    var q, r := Divide(x, 128 * k);
    var a, b := Divide(r, 128);
    MulAssoc(q, 128, k);
    QuotientIsUnique(x, q, r, 128 * k);
    QuotientIsUnique(r, a, b, 128);
    QuotientIsUnique(x, q * k + a, b, 128);
  }

  /** Cutting off high bits does not change a group below them. */
  lemma GroupBelowCut(num: nat, keep: nat, div: nat, k: nat)
    requires div > 0 && k > 0 && keep == div * (128 * k)
    ensures num % keep / div % 128 == num / div % 128
  {
    DivideTheCut(num, div, 128 * k, keep);
    LowestGroup(num / div, k);
  }

  lemma ShiftBack(x: nat, factor: nat, div: nat)
    requires factor > 0 && div > 0
    ensures x * factor / (factor * div) == x / div
  {
    var a, b := x / div, x % div;
    MulOverAdd(a * div, b, factor);
    MulAssoc(a, factor, div);
    assert b * factor < div * factor;
    QuotientIsUnique(x * factor, a, b * factor, factor * div);
  }

  /** Shifting left by n and back by 25 selects seven bits of `num`. */
  lemma ShiftsSelect(num: nat, factor: nat, div: nat, keep: nat)
    requires factor > 0 && div > 0 && factor * div == 0x200_0000
    requires factor * keep == 0x1_0000_0000_0000_0000 && keep == div * 0x80_0000_0000
    ensures Shl64(num, factor) / 0x200_0000 % 128 == num / div % 128
  {
    ShiftDropsTop(num, factor, keep);
    ShiftBack(num % keep, factor, div);
    GroupBelowCut(num, keep, div, 0x1_0000_0000);
  }

  /** The four groups of a 28-bit number. */
  ghost function Groups(v: nat): seq<nat> {
    var a := v / 128;
    var b := a / 128;
    [v % 128, a % 128, b % 128, b / 128]
  }

  lemma FlatGroups(v: nat)
    ensures v / 16384 == v / 128 / 128 && v / 2097152 == v / 128 / 128 / 128
  {}

  lemma SpellGroups1(v: nat)
    requires v < 16384
    ensures Capacity(1) == 128 && Capacity(2) == 16384
    ensures v < 128 ==> MinWidth(v) == 1 && Spell(v, 1) == [v]
    ensures v >= 128 ==> MinWidth(v) == 2
    ensures Spell(v, 2) == [v % 128 + 128, v / 128]
  {
    assert Capacity(2) == 128 * Capacity(1);
    assert Spell(v, 2) == [v % 128 + 128] + Spell(v / 128, 1);
  }

  lemma SpellGroups2(v: nat)
    requires v < 2097152
    ensures Capacity(3) == 2097152
    ensures v >= 16384 ==> MinWidth(v) == 3
    ensures Spell(v, 3) == [v % 128 + 128, v / 128 % 128 + 128, v / 128 / 128]
  {
    assert v / 128 < 16384;
    SpellGroups1(v / 128);
    assert Capacity(3) == 128 * Capacity(2);
    assert Spell(v, 3) == [v % 128 + 128] + Spell(v / 128, 2);
  }

  lemma SpellGroups3(v: nat)
    requires v < LIMIT
    ensures Capacity(4) == LIMIT
    ensures v >= 2097152 ==> MinWidth(v) == 4
    ensures Spell(v, 4) == [v % 128 + 128, v / 128 % 128 + 128, v / 128 / 128 % 128 + 128, v / 128 / 128 / 128]
  {
    var a := v / 128;
    assert a < 2097152;
    SpellGroups2(a);
    assert Capacity(4) == 128 * Capacity(3);
    assert Spell(v, 4) == [v % 128 + 128] + Spell(a, 3);
  }

  /** The shortest spelling keeps the groups up to the last non-zero one. */
  lemma SpellOfGroups(v: nat)
    requires v < LIMIT
    ensures 1 <= MinWidth(v) <= 4
    ensures var g := Groups(v); var w := MinWidth(v);
            && Spell(v, w) == seq(w, k requires 0 <= k < w => if k < w - 1 then g[k] + 128 else g[k])
            && (w > 1 ==> g[w - 1] > 0)
            && forall k :: w <= k < 4 ==> g[k] == 0
  {
    if v < 16384 { SpellGroups1(v); } else if v < 2097152 { SpellGroups2(v); } else { SpellGroups3(v); }
  }

  lemma GroupsOfNumber(num: nat)
    ensures var g := Groups(num % LIMIT);
            && Group(Shl64(num, 0x200_0000) / 0x200_0000) == g[0] + 128
            && Group(Shl64(num, 0x4_0000) / 0x200_0000) == g[1] + 128
            && Group(Shl64(num, 0x800) / 0x200_0000) == g[2] + 128
            && Group(Shl64(num, 0x10) / 0x200_0000) == g[3] + 128
  {
    ShiftsSelect(num, 0x200_0000, 1, 0x80_0000_0000);
    ShiftsSelect(num, 0x4_0000, 128, 0x4000_0000_0000);
    ShiftsSelect(num, 0x800, 16384, 0x20_0000_0000_0000);
    ShiftsSelect(num, 0x10, 2097152, 0x1000_0000_0000_0000);
    FlatGroups(num % LIMIT);
    LowGroups(num);
  }

  lemma MinWidthInLimit(v: nat)
    requires v < LIMIT
    ensures MinWidth(v) <= MAX_WIDTH
  {
    hide Capacity;
    SpellGroups3(0);
    MinWidthLeast(v, 4);
  }

  /** Four groups cut down to the last non-zero one: the shortest spelling of the low 28 bits. */
  method EncodeVarInt(num: nat) returns (data: seq<byte>)
    requires num < 0x1_0000_0000_0000_0000
    ensures data == Spell(num % LIMIT, MinWidth(num % LIMIT))
  {
    hide Spell, Capacity, MinWidth, Shl64, Group;
    data := [Group(Shl64(num, 0x200_0000) / 0x200_0000),
             Group(Shl64(num, 0x4_0000) / 0x200_0000),
             Group(Shl64(num, 0x800) / 0x200_0000),
             Group(Shl64(num, 0x10) / 0x200_0000)];
    ghost var v := num % LIMIT;
    ghost var all := data;
    GroupsOfNumber(num);
    SpellOfGroups(v);
    ghost var g := Groups(v);
    assert forall k :: 0 <= k < 4 ==> all[k] == g[k] + 128;
    while data[|data| - 1] == 0x80 && |data| > 1
      invariant MinWidth(v) <= |data| <= 4 && data == all[..|data|]
      decreases |data|
    {
      data := data[..|data| - 1];
    }
    data := data[..|data| - 1] + [data[|data| - 1] - 0x80];
  }

  lemma LowGroups(num: nat)
    ensures var v := num % LIMIT;
            && v % 128 == num % 128
            && v / 128 % 128 == num / 128 % 128
            && v / 16384 % 128 == num / 16384 % 128
            && v / 2097152 == num / 2097152 % 128
  {
    GroupBelowCut(num, LIMIT, 1, 2097152);
    GroupBelowCut(num, LIMIT, 128, 16384);
    GroupBelowCut(num, LIMIT, 16384, 128);
    GroupBelowCut(num, LIMIT, 2097152, 1);
    assert num % LIMIT / 2097152 < 128;
  }

  /** Parsing what was encoded returns the number exactly when it fits into 28 bits. */
  lemma EncodedCountReadsBack(data: seq<byte>, off: nat, num: nat)
    requires At(data, off, Spell(num % LIMIT, MinWidth(num % LIMIT)))
    ensures ReadCount(data, off) == Some(Count(num % LIMIT, MinWidth(num % LIMIT)))
    ensures ReadCount(data, off).value.value == num <==> num < LIMIT
  {
    SpellOfGroups(num % LIMIT);
    SpelledIsRead(data, off, num % LIMIT, MinWidth(num % LIMIT), MAX_WIDTH);
  }

  /** A minimal count re-encodes to the octets it was read from. */
  lemma MinimalReencodes(data: seq<byte>, off: nat)
    requires ReadCount(data, off).Some?
    ensures var c := ReadCount(data, off).value;
            && c.value < LIMIT
            && At(data, off, Spell(c.value, c.width))
            && (Minimal(data[off..off + c.width]) <==> data[off..off + c.width] == Spell(c.value, MinWidth(c.value)))
  {
    var c := ReadCount(data, off).value;
    ReadIsSpelled(data, off, MAX_WIDTH);
    MinimalIffMinWidth(c.value, c.width);
    CapacityGrows(c.width, MAX_WIDTH);
    SpellGroups3(0);
  }

  lemma {:induction false} CapacityGrows(v: nat, w: nat)
    requires v <= w
    ensures 1 <= Capacity(v) <= Capacity(w)
  {
    if v < w { CapacityGrows(v, w - 1); } else if v > 0 { CapacityGrows(v - 1, w - 1); }
  }
}
