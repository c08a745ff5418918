/** The x86 branch filter (BCJ), compression/LZMA/Bra86.c. */
module Bra86 {
  import opened Bytes

  /** ((b + 1) & 0xFE) == 0 on the promoted int. */
  predicate Test86MSByte(b: byte)
    ensures Test86MSByte(b) <==> b == 0 || b == 255
  {
    (b + 1) / 2 % 128 == 0
  }

  /** The opcode test (b & 0xFE) == 0xE8. */
  predicate IsBranch(b: byte) {
    b / 2 == 0x74
  }

  /** The little-endian word at q[1..5]. */
  function Word(q: seq<byte>): (v: u32)
    requires |q| > 4
  {
    q[1] as int + 0x100 * q[2] as int + 0x10000 * q[3] as int + 0x1000000 * q[4] as int
  }

  /** The four bytes stored back: 24 bits of v, then bit 24 spread over the top byte. */
  function Store(v: int): (r: seq<byte>)
    ensures |r| == 4
  {
    [v % 0x100, v / 0x100 % 0x100, v / 0x10000 % 0x100, if v / 0x1000000 % 2 == 1 then 255 else 0]
  }

  /** v ^ (k - 1) for a power of two k: the low bits are complemented. */
  function XorLow(v: int, k: int): int
    requires k > 0
  {
    v + (k - 1) - 2 * (v % k)
  }

  /** 1 << ((mask & 6) << 2), for the masks that reach the rewrite. */
  function Unit(mask: int): (u: int)
    ensures u > 0
  {
    if mask == 4 then 0x10000 else if mask == 2 then 0x100 else 1
  }

  /** The rewrite of one operand: add t, and once more after a complement
      when the byte that an earlier opcode looked at became 00 or FF. */
  function Rewrite(v: int, t: int, mask: int): (w: u32) {
    var a := (v + t) % TWO32;
    if mask != 0 && Test86MSByte(a / Unit(mask) % 256) then
      (XorLow(a, 256 * Unit(mask)) + t) % TWO32
    else
      a
  }

  /** The opcode at q[0] is left alone because of the opcodes before it. */
  predicate Blocked(q: seq<byte>, mask: int)
    requires |q| > 4 && 0 <= mask < 8
  {
    mask != 0 && (mask > 4 || mask == 3 || Test86MSByte(q[mask / 2 + 1]))
  }

  datatype Result = Result(data: seq<byte>, processed: nat, mask: int)

  function Prepend(p: seq<byte>, r: Result): Result {
    Result(p + r.data, |p| + r.processed, r.mask)
  }

  function Offset(cur: int, encoding: bool): int {
    if encoding then cur else -cur
  }

  /** The opcode at q[0] with its operand rewritten. */
  function Rewritten(q: seq<byte>, t: int, mask: int): (r: seq<byte>)
    requires |q| > 4
    ensures |r| == 5 && r[0] == q[0]
  {
    [q[0]] + Store(Rewrite(Word(q), t, mask))
  }

  predicate Converts(s: seq<byte>, mask: int)
    requires |s| > 4 && 0 <= mask < 8
  {
    IsBranch(s[0]) && !Blocked(s, mask) && Test86MSByte(s[4])
  }

  /** The bytes finished by one step: a converted instruction or a single byte. */
  function Head(s: seq<byte>, cur: int, mask: int, encoding: bool): (h: seq<byte>)
    requires |s| > 4 && 0 <= mask < 8
    ensures 1 <= |h| <= 5 && h[0] == s[0]
  {
    if Converts(s, mask) then Rewritten(s, Offset(cur, encoding), mask) else [s[0]]
  }

  function NextMask(s: seq<byte>, mask: int): (m: int)
    requires |s| > 4 && 0 <= mask < 8
    ensures 0 <= m < 8
  {
    if Converts(s, mask) then 0 else mask / 2 + if IsBranch(s[0]) then 4 else 0
  }

  /** The filter one byte at a time, on the unread rest s of the buffer.
      cur is ip + 5 + pos; mask has bit 4, 2, 1 for an opcode seen 1, 2, 3 bytes ago. */
  function Convert(s: seq<byte>, cur: int, mask: int, encoding: bool): (r: Result)
    requires 0 <= mask < 8
    ensures |r.data| == |s| && r.processed <= |s| && 0 <= r.mask < 8
    ensures s != [] ==> r.data[0] == s[0]
    decreases |s|
  {
    if |s| <= 4 then
      Result(s, 0, mask)
    else
      var h := Head(s, cur, mask, encoding);
      Prepend(h, Convert(s[|h|..], cur + |h|, NextMask(s, mask), encoding))
  }

  lemma ConvertShort(s: seq<byte>, cur: int, mask: int, encoding: bool)
    requires |s| <= 4 && 0 <= mask < 8
    ensures Convert(s, cur, mask, encoding) == Result(s, 0, mask)
  {}

  lemma Unfold(s: seq<byte>, cur: int, mask: int, encoding: bool)
    requires |s| > 4 && 0 <= mask < 8
    ensures var h := Head(s, cur, mask, encoding);
            Convert(s, cur, mask, encoding)
              == Prepend(h, Convert(s[|h|..], cur + |h|, NextMask(s, mask), encoding))
  {
    hide Head, NextMask;
  }

  /** The bytes that opcodes already passed will be judged by. */
  ghost predicate SameTests(s: seq<byte>, s': seq<byte>, mask: int)
    requires |s| == |s'| && 0 <= mask < 8
  {
    && (|s| > 3 && mask / 4 == 1 ==> Test86MSByte(s[3]) == Test86MSByte(s'[3]))
    && (|s| > 2 && mask / 2 % 2 == 1 ==> Test86MSByte(s[2]) == Test86MSByte(s'[2]))
    && (|s| > 1 && mask % 2 == 1 ==> Test86MSByte(s[1]) == Test86MSByte(s'[1]))
  }

  lemma StoreDigits(b0: byte, b1: byte, b2: byte, h: int)
    ensures Store(b0 as int + 0x100 * b1 as int + 0x10000 * b2 as int + 0x1000000 * h)
         == [b0, b1, b2, if h % 2 == 1 then 255 else 0]
  {
    var v := b0 as int + 0x100 * b1 as int + 0x10000 * b2 as int + 0x1000000 * h;
    var v1, v2 := b1 as int + 0x100 * b2 as int + 0x10000 * h, b2 as int + 0x100 * h;
    DivModUnique(v, 0x100, v1, b0);
    DivModUnique(v, 0x10000, v2, b0 as int + 0x100 * b1 as int);
    DivModUnique(v, 0x1000000, h, b0 as int + 0x100 * b1 as int + 0x10000 * b2 as int);
    DivModUnique(v1, 0x100, v2, b1);
    DivModUnique(v2, 0x100, h, b2);
  }

  lemma Digits(v: int) returns (b0: byte, b1: byte, b2: byte, h: int)
    ensures v == b0 as int + 0x100 * b1 as int + 0x10000 * b2 as int + 0x1000000 * h
  {
    var v1 := v / 0x100;
    var v2 := v1 / 0x100;
    b0, b1, b2, h := v % 0x100, v1 % 0x100, v2 % 0x100, v2 / 0x100;
  }

  /** Storing only keeps 25 bits of the word, so words 2^25 apart are stored alike. */
  lemma StoreLow25(v: int, w: int, k: int)
    requires w == v + 0x2000000 * k
    ensures Store(w) == Store(v)
  {
    var b0, b1, b2, h := Digits(v);
    StoreDigits(b0, b1, b2, h);
    StoreDigits(b0, b1, b2, h + 2 * k);
  }

  /** Reading a stored word back gives it up to a multiple of 2^25. */
  lemma WordOfStore(b: byte, v: int, rest: seq<byte>) returns (k: int)
    ensures Word([b] + Store(v) + rest) == v + 0x2000000 * k
  {
    var b0, b1, b2, h := Digits(v);
    StoreDigits(b0, b1, b2, h);
    k := if h % 2 == 1 then (255 - h) / 2 else -(h / 2);
  }

  /** x and y agree on the 25 bits that are stored. */
  ghost predicate Same25(x: int, y: int) {
    exists k: int :: x == y + 0x2000000 * k
  }

  lemma Wrap25(x: int)
    ensures Same25(x % TWO32, x)
  {
    assert x % TWO32 == x + 0x2000000 * (-128 * (x / TWO32));
  }

  lemma AddSame25(x: int, y: int, d: int)
    requires Same25(x, y)
    ensures Same25(x + d, y + d) && Same25(y, x)
  {
    var k :| x == y + 0x2000000 * k;
    assert x + d == y + d + 0x2000000 * k;
    assert y == x + 0x2000000 * -k;
  }

  lemma TransSame25(x: int, y: int, z: int)
    requires Same25(x, y) && Same25(y, z)
    ensures Same25(x, z)
  {
    var k :| x == y + 0x2000000 * k;
    var l :| y == z + 0x2000000 * l;
    assert x == z + 0x2000000 * (k + l);
  }

  predicate IsUnit(u: int) { u == 1 || u == 0x100 || u == 0x10000 }

  /** The byte at unit u is decided by the bits below 256 * u. */
  lemma ByteOfLow(x: int, u: int)
    requires IsUnit(u)
    ensures x / u % 256 == x % (256 * u) / u
  {
    DivTwice(x, u, 256);
  }

  lemma LowSame25(x: int, y: int, u: int)
    requires IsUnit(u) && Same25(x, y)
    ensures x % (256 * u) == y % (256 * u)
  {
    var k :| x == y + 0x2000000 * k;
    ModAddMultiple(y, 256 * u, if u == 1 then 0x20000 * k else if u == 0x100 then 0x200 * k else 2 * k);
  }

  /** Complementing the low bits of v + t and adding t again complements the low bits of v. */
  lemma ComplementLow(v: int, t: int, u: int)
    requires IsUnit(u)
    ensures (XorLow(v + t, 256 * u) + t) % (256 * u) == 256 * u - 1 - v % (256 * u)
  {
    var n := 256 * u;
    var x, k, l := XorLow(v + t, n) + t, (v + t) / n, v / n;
    assert v + t == n * k + (v + t) % n && v == n * l + v % n;
    assert n * (2 * k - l) == 2 * (n * k) - n * l;
    DivModUnique(x, n, 2 * k - l, n - 1 - v % n);
  }

  lemma ComplementByte(x: int, y: int, u: int)
    requires IsUnit(u) && y % (256 * u) == 256 * u - 1 - x % (256 * u)
    ensures y / u % 256 == 255 - x / u % 256
  {
    ByteOfLow(x, u);
    ByteOfLow(y, u);
    var l, m := x % (256 * u), y % (256 * u);
    assert l == u * (l / u) + l % u;
    assert u * (255 - l / u) == 255 * u - u * (l / u);
    DivModUnique(m, u, 255 - l / u, u - 1 - l % u);
  }

  /** What Rewrite computes, up to the 25 stored bits. */
  lemma RewriteSame25(v: int, t: int, mask: int)
    requires mask in {0, 1, 2, 4}
    ensures mask == 0 ==> Same25(Rewrite(v, t, mask), v + t)
    ensures mask != 0 ==>
      var u := Unit(mask);
      if Test86MSByte((v + t) / u % 256) then
        Same25(Rewrite(v, t, mask), XorLow(v + t, 256 * u) + t)
      else
        Same25(Rewrite(v, t, mask), v + t)
  {
    var a, u := (v + t) % TWO32, Unit(mask);
    Wrap25(v + t);
    LowSame25(a, v + t, u);
    ByteOfLow(a, u);
    ByteOfLow(v + t, u);
    if mask != 0 && Test86MSByte(a / u % 256) {
      var x := XorLow(a, 256 * u) + t;
      Wrap25(x);
      AddSame25(a, v + t, 256 * u - 1 - 2 * (a % (256 * u)) + t);
      TransSame25(x % TWO32, x, XorLow(v + t, 256 * u) + t);
    }
  }

  /** The complemented case: v2 holds (v + t with low bits complemented) + t. */
  lemma ComplementTwice(v: int, v2: int, t: int, u: int)
    requires IsUnit(u) && Test86MSByte((v + t) / u % 256) && !Test86MSByte(v / u % 256)
    requires Same25(v2, XorLow(v + t, 256 * u) + t)
    ensures !Test86MSByte(v2 / u % 256) && Test86MSByte((v2 - t) / u % 256)
    ensures Same25(XorLow(v2 - t, 256 * u) - t, v)
  {
    hide Same25, XorLow, Test86MSByte;
    var x := XorLow(v + t, 256 * u);
    ComplementLow(v, t, u);
    LowSame25(v2, x + t, u);
    ComplementByte(v, v2, u);
    AddSame25(v2, x + t, -t);
    LowSame25(v2 - t, x, u);
    ComplementLow(v + t, 0, u);
    ComplementByte(v + t, v2 - t, u);
    AddSame25(v2 - t, x, v - x);
    Flip(v / u % 256);
    Flip((v + t) / u % 256);
    ComplementBack(v + t, v2 - t, 256 * u);
  }

  lemma Flip(b: byte)
    ensures Test86MSByte(255 - b) == Test86MSByte(b)
  {}

  /** Complementing twice. */
  lemma ComplementBack(a: int, b: int, n: int)
    requires n > 0 && b % n == n - 1 - a % n
    ensures XorLow(b, n) == b + a - XorLow(a, n)
  {}

  /** Rewriting with t and then with -t gives the word back, up to the stored bits,
      provided the byte an earlier opcode looked at was not 00 or FF; and it is
      not 00 or FF in between either. */
  lemma RewriteTwice(v: int, v2: int, t: int, mask: int)
    requires mask in {0, 1, 2, 4}
    requires mask != 0 ==> !Test86MSByte(v / Unit(mask) % 256)
    requires Same25(v2, Rewrite(v, t, mask))
    ensures Same25(Rewrite(v2, -t, mask), v)
    ensures mask != 0 ==> !Test86MSByte(v2 / Unit(mask) % 256)
  {
    hide Rewrite, XorLow, Same25, Test86MSByte, Unit;
    var u := Unit(mask);
    assert IsUnit(u) by { UnitIs(mask); }
    RewriteSame25(v, t, mask);
    RewriteSame25(v2, -t, mask);
    if mask != 0 && Test86MSByte((v + t) / u % 256) {
      TransSame25(v2, Rewrite(v, t, mask), XorLow(v + t, 256 * u) + t);
      ComplementTwice(v, v2, t, u);
      TransSame25(Rewrite(v2, -t, mask), XorLow(v2 - t, 256 * u) - t, v);
    } else {
      TransSame25(v2, Rewrite(v, t, mask), v + t);
      AddSame25(v2, v + t, -t);
      SameByte(v2 - t, v, u);
      SameByte(v2, v + t, u);
      TransSame25(Rewrite(v2, -t, mask), v2 - t, v);
    }
  }

  lemma UnitIs(mask: int)
    requires mask in {0, 1, 2, 4}
    ensures IsUnit(Unit(mask))
  {}

  lemma SameByte(x: int, y: int, u: int)
    requires IsUnit(u) && Same25(x, y)
    ensures x / u % 256 == y / u % 256
  {
    LowSame25(x, y, u);
    ByteOfLow(x, u);
    ByteOfLow(y, u);
  }

  lemma WordByte(q: seq<byte>, mask: int)
    requires |q| > 4 && mask in {1, 2, 4}
    ensures Word(q) / Unit(mask) % 256 == q[mask / 2 + 1]
  {
    var v := Word(q);
    if mask == 1 {
      assert v == q[1] as int + 0x100 * (q[2] as int + 0x100 * q[3] as int + 0x10000 * q[4] as int);
    } else if mask == 2 {
      assert v / 0x100 == q[2] as int + 0x100 * (q[3] as int + 0x100 * q[4] as int);
    } else {
      assert v / 0x10000 == q[3] as int + 0x100 * q[4] as int;
    }
  }

  /** One rewritten operand: the second pass meets the same tests and undoes it. */
  lemma RewrittenTwice(q: seq<byte>, t: int, mask: int, rest: seq<byte>)
    requires |q| > 4 && 0 <= mask < 8 && !Blocked(q, mask) && Test86MSByte(q[4])
    ensures var q' := Rewritten(q, t, mask) + rest;
            && !Blocked(q', mask) && Test86MSByte(q'[4])
            && Rewritten(q', -t, mask) == q[..5]
  {
    hide Rewrite;
    var w := Rewrite(Word(q), t, mask);
    var q' := Rewritten(q, t, mask) + rest;
    var k := WordOfStore(q[0], w, rest);
    assert q' == [q[0]] + Store(w) + rest;
    if mask != 0 { WordByte(q, mask); WordByte(q', mask); }
    RewriteTwice(Word(q), Word(q'), t, mask);
    StoredBack(q, Rewrite(Word(q'), -t, mask));
  }

  /** A word that agrees with q's up to the stored bits is stored as q's. */
  lemma StoredBack(q: seq<byte>, w: int)
    requires |q| > 4 && Test86MSByte(q[4]) && Same25(w, Word(q))
    ensures [q[0]] + Store(w) == q[..5]
  {
    var l: int :| w == Word(q) + 0x2000000 * l;
    StoreLow25(Word(q), w, l);
    StoreDigits(q[1], q[2], q[3], q[4] as int);
    assert q[1..5] == [q[1], q[2], q[3], q[4]];
    assert q[..5] == [q[0]] + q[1..5];
  }

  lemma SameTestsAtStop(s: seq<byte>, mask: int)
    requires 0 <= mask < 8
    ensures SameTests(s, s, mask)
  {}

  /** An untouched byte moves every remembered opcode one further back. */
  lemma SameTestsShift(b: byte, s: seq<byte>, s': seq<byte>, mask: int, m: int)
    requires |s| == |s'| && 0 <= mask < 8 && m in {mask / 2, mask / 2 + 4}
    requires SameTests(s, s', m) && (s != [] ==> s[0] == s'[0])
    ensures SameTests([b] + s, [b] + s', mask)
  {
    assert m % 2 == mask / 2 % 2 && m / 2 % 2 == mask / 4;
  }

  lemma SameTestsRewritten(s: seq<byte>, s': seq<byte>, mask: int)
    requires |s| == |s'| && |s| > 4 && 0 <= mask < 8
    requires !Blocked(s, mask) && !Blocked(s', mask)
    ensures SameTests(s, s', mask)
  {
    assert mask in {0, 1, 2, 4};
  }

  /** Converting the rest of the buffer keeps the outcome of every test that
      an opcode already passed was subjected to. */
  lemma {:induction false} KeepsTests(s: seq<byte>, cur: int, mask: int, encoding: bool)
    requires 0 <= mask < 8
    ensures SameTests(s, Convert(s, cur, mask, encoding).data, mask)
    decreases |s|
  {
    hide Rewrite, Word, Store, SameTests, Convert, Blocked, IsBranch;
    if |s| <= 4 {
      assert Convert(s, cur, mask, encoding).data == s by { ConvertShort(s, cur, mask, encoding); }
      SameTestsAtStop(s, mask);
    } else {
      var h := Head(s, cur, mask, encoding);
      var rest := Convert(s[|h|..], cur + |h|, NextMask(s, mask), encoding).data;
      Unfold(s, cur, mask, encoding);
      if Converts(s, mask) {
        RewrittenTwice(s, Offset(cur, encoding), mask, rest);
        SameTestsRewritten(s, h + rest, mask);
      } else {
        KeepsTests(s[1..], cur + 1, NextMask(s, mask), encoding);
        SameTestsShift(s[0], s[1..], rest, mask, NextMask(s, mask));
        assert [s[0]] + s[1..] == s;
      }
    }
  }

  lemma SameChoice(s: seq<byte>, s': seq<byte>, mask: int)
    requires |s| == |s'| && |s| > 4 && 0 <= mask < 8
    requires s'[0] == s[0] && SameTests(s, s', mask) && Test86MSByte(s[4]) == Test86MSByte(s'[4])
    ensures Converts(s', mask) == Converts(s, mask)
  {
    if mask in {1, 2, 4} {
      assert Test86MSByte(s[mask / 2 + 1]) == Test86MSByte(s'[mask / 2 + 1]);
    }
  }

  lemma HeadTwiceConverted(s: seq<byte>, cur: int, mask: int, encoding: bool, rest: seq<byte>)
    requires |s| > 4 && 0 <= mask < 8 && Converts(s, mask) && |rest| == |s| - 5
    ensures var s' := Head(s, cur, mask, encoding) + rest;
            && NextMask(s', mask) == NextMask(s, mask)
            && Head(s', cur, mask, !encoding) == s[..5]
  {
    hide Rewrite, Word, Store, Blocked, Rewritten;
    RewrittenTwice(s, Offset(cur, encoding), mask, rest);
    assert Offset(cur, !encoding) == -Offset(cur, encoding);
  }

  lemma HeadTwiceKept(s: seq<byte>, cur: int, mask: int, encoding: bool, rest: seq<byte>)
    requires |s| > 4 && 0 <= mask < 8 && !Converts(s, mask) && |rest| == |s| - 1
    requires SameTests(s, [s[0]] + rest, mask) && SameTests(s[1..], rest, NextMask(s, mask))
    ensures var s' := [s[0]] + rest;
            && NextMask(s', mask) == NextMask(s, mask)
            && Head(s', cur, mask, !encoding) == s[..1]
  {
    hide Rewrite, Word, Store, Blocked, Rewritten;
    var s' := [s[0]] + rest;
    assert s'[4] == rest[3] && s[1..][3] == s[4];
    if IsBranch(s[0]) {
      assert NextMask(s, mask) / 4 == 1;
      SameChoice(s, s', mask);
    }
  }

  /** The second pass makes the choice of the first and restores its bytes. */
  lemma HeadTwice(s: seq<byte>, cur: int, mask: int, encoding: bool)
    requires |s| > 4 && 0 <= mask < 8
    ensures var s' := Convert(s, cur, mask, encoding).data;
            var h := Head(s, cur, mask, encoding);
            && NextMask(s', mask) == NextMask(s, mask)
            && Head(s', cur, mask, !encoding) == s[..|h|]
            && s'[|h|..] == Convert(s[|h|..], cur + |h|, NextMask(s, mask), encoding).data
  {
    Unfold(s, cur, mask, encoding);
    hide Convert, Rewritten, NextMask, SameTests, Blocked;
    var h, m := Head(s, cur, mask, encoding), NextMask(s, mask);
    var rest := Convert(s[|h|..], cur + |h|, m, encoding).data;
    if Converts(s, mask) {
      HeadTwiceConverted(s, cur, mask, encoding, rest);
    } else {
      KeepsTests(s, cur, mask, encoding);
      KeepsTests(s[1..], cur + 1, m, encoding);
      HeadTwiceKept(s, cur, mask, encoding, rest);
    }
  }

  /** Each direction of the filter undoes the other, for every buffer, address and
      starting state, and both passes stop at the same place in the same state. */
  lemma {:induction false} RoundTrip(s: seq<byte>, cur: int, mask: int, encoding: bool)
    requires 0 <= mask < 8
    ensures var r := Convert(s, cur, mask, encoding);
            Convert(r.data, cur, mask, !encoding) == Result(s, r.processed, r.mask)
    decreases |s|
  {
    hide Convert, Head, NextMask;
    if |s| <= 4 {
      ConvertShort(s, cur, mask, encoding);
      ConvertShort(s, cur, mask, !encoding);
    } else {
      var n := |Head(s, cur, mask, encoding)|;
      var s' := Convert(s, cur, mask, encoding).data;
      HeadTwice(s, cur, mask, encoding);
      RoundTrip(s[n..], cur + n, NextMask(s, mask), encoding);
      Unfold(s, cur, mask, encoding);
      Unfold(s', cur, mask, !encoding);
      assert s[..n] + s[n..] == s;
    }
  }

  lemma PrefixStep(s: seq<byte>, n: nat, cur: int, mask: int, encoding: bool)
    requires 0 <= mask < 8 && 4 < n <= |s|
    ensures Head(s[..n], cur, mask, encoding) == Head(s, cur, mask, encoding)
    ensures NextMask(s[..n], mask) == NextMask(s, mask)
  {
    hide Rewrite, Store;
    assert Word(s[..n]) == Word(s);
  }

  /** The second call starts from what the first left, with the bytes that follow. */
  function Resume(a: Result, tail: seq<byte>, cur: int, encoding: bool): (r: Result)
    requires a.processed <= |a.data| && 0 <= a.mask < 8
    ensures |r.data| == |a.data| + |tail|
  {
    var b := Convert(a.data[a.processed..] + tail, cur + a.processed, a.mask, encoding);
    Result(a.data[..a.processed] + b.data, a.processed + b.processed, b.mask)
  }

  lemma ResumePrepend(h: seq<byte>, a: Result, tail: seq<byte>, cur: int, encoding: bool)
    requires a.processed <= |a.data| && 0 <= a.mask < 8
    ensures Resume(Prepend(h, a), tail, cur, encoding) == Prepend(h, Resume(a, tail, cur + |h|, encoding))
  {
    hide Convert;
    var p := Prepend(h, a);
    assert p.data[p.processed..] == a.data[a.processed..];
    assert p.data[..p.processed] == h + a.data[..a.processed];
    assert cur + |h| + a.processed == cur + p.processed;
    var b := Convert(a.data[a.processed..] + tail, cur + p.processed, a.mask, encoding);
    assert h + (a.data[..a.processed] + b.data) == p.data[..p.processed] + b.data;
  }

  lemma PiecesShort(s: seq<byte>, n: nat, cur: int, mask: int, encoding: bool)
    requires 0 <= mask < 8 && n <= |s| && n <= 4
    ensures Convert(s, cur, mask, encoding)
         == Resume(Convert(s[..n], cur, mask, encoding), s[n..], cur, encoding)
  {
    hide Convert;
    ConvertShort(s[..n], cur, mask, encoding);
    assert s[..n][0..] + s[n..] == s;
  }

  /** A stream may be fed in pieces: converting the first n bytes, and then the
      unprocessed bytes with whatever follows from the returned state, is the
      same as converting everything at once. */
  lemma {:induction false} Pieces(s: seq<byte>, n: nat, cur: int, mask: int, encoding: bool)
    requires 0 <= mask < 8 && n <= |s|
    ensures Convert(s, cur, mask, encoding)
         == Resume(Convert(s[..n], cur, mask, encoding), s[n..], cur, encoding)
    decreases n
  {
    hide Convert, Resume, Head, NextMask;
    if n <= 4 {
      PiecesShort(s, n, cur, mask, encoding);
    } else {
      var h := Head(s, cur, mask, encoding);
      var j, m := |h|, NextMask(s, mask);
      PrefixStep(s, n, cur, mask, encoding);
      Unfold(s, cur, mask, encoding);
      Unfold(s[..n], cur, mask, encoding);
      assert j <= 5;
      Pieces(s[j..], n - j, cur + j, m, encoding);
      assert s[j..][..n - j] == s[..n][j..];
      assert s[j..][n - j..] == s[n..];
      ResumePrepend(h, Convert(s[..n][j..], cur + j, m, encoding), s[n..], cur, encoding);
    }
  }

  /** mask after d bytes without an opcode: mask >> d, and 0 from three on. */
  function Fade(mask: int, d: nat): (m: int)
    requires 0 <= mask < 8
    ensures 0 <= m < 8
  {
    if d > 2 then 0 else if d == 2 then mask / 4 else if d == 1 then mask / 2 else mask
  }

  lemma FadeStep(mask: int, d: nat)
    requires 0 <= mask < 8 && d > 0
    ensures Fade(mask, d) == Fade(mask / 2, d - 1)
  {}

  /** Skipping over bytes that are not opcodes. */
  lemma {:induction false} Skip(s: seq<byte>, d: nat, cur: int, mask: int, encoding: bool)
    requires 0 <= mask < 8 && d <= |s| && (d > 0 ==> d + 4 <= |s|)
    requires forall i :: 0 <= i < d ==> !IsBranch(s[i])
    ensures Convert(s, cur, mask, encoding)
         == Prepend(s[..d], Convert(s[d..], cur + d, Fade(mask, d), encoding))
  {
    hide Convert;
    if d == 0 {
      assert s[0..] == s;
      assert s[..0] + Convert(s, cur, mask, encoding).data == Convert(s, cur, mask, encoding).data;
    } else {
      hide Fade, Word, Store, Rewrite, Blocked;
      var s1 := s[1..];
      assert Convert(s, cur, mask, encoding) == Prepend([s[0]], Convert(s1, cur + 1, mask / 2, encoding)) by {
        Unfold(s, cur, mask, encoding);
      }
      Skip(s1, d - 1, cur + 1, mask / 2, encoding);
      FadeStep(mask, d);
      assert s1[d - 1..] == s[d..];
      PrependTwice([s[0]], s1[..d - 1], Convert(s[d..], cur + d, Fade(mask, d), encoding));
      assert [s[0]] + s1[..d - 1] == s[..d];
    }
  }

  lemma PrependTwice(a: seq<byte>, b: seq<byte>, r: Result)
    ensures Prepend(a, Prepend(b, r)) == Prepend(a + b, r)
  {
    assert a + (b + r.data) == (a + b) + r.data;
  }

  /** Only the address modulo 2^32 matters. */
  lemma RewriteWraps(v: int, cur: int, mask: int, encoding: bool)
    ensures Rewrite(v, Offset(cur % TWO32, encoding), mask) == Rewrite(v, Offset(cur, encoding), mask)
  {
    var t, t' := Offset(cur % TWO32, encoding), Offset(cur, encoding);
    var k := if encoding then cur / TWO32 else -(cur / TWO32);
    assert t' == t + TWO32 * k;
    ModAddMultiple(v + t, TWO32, k);
    var x := XorLow((v + t) % TWO32, 256 * Unit(mask));
    ModAddMultiple(x + t, TWO32, k);
  }

  /** What the loop of X86Convert has established at pos. */
  ghost predicate Reached(orig: seq<byte>, now: seq<byte>, pos: nat, ip: int, r: Result, mask: int, encoding: bool) {
    && |now| == |orig| && pos <= |orig| && 0 <= mask < 8
    && now[pos..] == orig[pos..]
    && r == Prepend(now[..pos], Convert(orig[pos..], ip + 5 + pos, mask, encoding))
  }

  lemma ReachedStep(orig: seq<byte>, now: seq<byte>, now': seq<byte>,
                    pos: nat, ip: int, r: Result, mask: int, encoding: bool)
    requires Reached(orig, now, pos, ip, r, mask, encoding) && pos + 4 < |orig|
    requires var h := Head(orig[pos..], ip + 5 + pos, mask, encoding);
             now' == now[..pos] + h + now[pos + |h|..]
    ensures var h := Head(orig[pos..], ip + 5 + pos, mask, encoding);
            Reached(orig, now', pos + |h|, ip, r, NextMask(orig[pos..], mask), encoding)
  {
    hide Convert, Head, NextMask;
    var s, cur := orig[pos..], ip + 5 + pos;
    Unfold(s, cur, mask, encoding);
    var h := Head(s, cur, mask, encoding);
    PrependTwice(now[..pos], h, Convert(s[|h|..], cur + |h|, NextMask(s, mask), encoding));
    BehindKept(orig, now, pos, h);
  }

  /** The bytes behind the replaced ones are still the original ones. */
  lemma BehindKept(orig: seq<byte>, now: seq<byte>, pos: nat, h: seq<byte>)
    requires |now| == |orig| && pos + |h| <= |orig| && now[pos..] == orig[pos..]
    ensures var now' := now[..pos] + h + now[pos + |h|..];
            now'[..pos + |h|] == now[..pos] + h && now'[pos + |h|..] == orig[pos + |h|..] == orig[pos..][|h|..]
  {
    assert now[pos + |h|..] == now[pos..][|h|..];
  }

  lemma ReachedSkip(orig: seq<byte>, now: seq<byte>, pos: nat, d: nat, ip: int, r: Result, mask: int, encoding: bool)
    requires Reached(orig, now, pos, ip, r, mask, encoding)
    requires pos + d <= |orig| && (d > 0 ==> pos + d + 4 <= |orig|)
    requires forall i :: pos <= i < pos + d ==> !IsBranch(now[i])
    ensures Reached(orig, now, pos + d, ip, r, Fade(mask, d), encoding)
  {
    hide Convert;
    var s := orig[pos..];
    assert forall i :: 0 <= i < d ==> s[i] == now[pos..][i] == now[pos + i];
    Skip(s, d, ip + 5 + pos, mask, encoding);
    PrependTwice(now[..pos], s[..d], Convert(s[d..], ip + 5 + pos + d, Fade(mask, d), encoding));
    assert s[..d] == now[pos..][..d];
    assert now[..pos + d] == now[..pos] + s[..d];
    assert s[d..] == orig[pos + d..];
    assert now[pos + d..] == now[pos..][d..];
  }

  lemma ReachedStart(orig: seq<byte>, ip: int, mask: int, encoding: bool)
    requires 0 <= mask < 8
    ensures Reached(orig, orig, 0, ip, Convert(orig, ip + 5, mask, encoding), mask, encoding)
  {
    hide Convert;
    var r := Convert(orig, ip + 5, mask, encoding);
    assert orig[0..] == orig && orig[..0] + r.data == r.data;
  }

  lemma ReachedStop(orig: seq<byte>, now: seq<byte>, pos: nat, ip: int, r: Result, mask: int, encoding: bool)
    requires Reached(orig, now, pos, ip, r, mask, encoding) && |orig| <= pos + 4
    ensures r == Result(now, pos, mask)
  {
    ConvertShort(orig[pos..], ip + 5 + pos, mask, encoding);
    hide Convert;
    assert now[..pos] + now[pos..] == now;
  }

  /** x86_Convert: the whole buffer in place, from a program counter and a state. */
  method X86Convert(data: array<byte>, ip: u32, state: u32, encoding: bool)
    returns (processed: nat, newState: u32)
    modifies data
    ensures data.Length < 5 ==> data[..] == old(data[..]) && processed == 0 && newState == state
    ensures data.Length >= 5 ==>
      Result(data[..], processed, newState) == Convert(old(data[..]), ip + 5, state % 8, encoding)
  {
    hide Convert, Reached;
    if data.Length < 5 { return 0, state; }
    var pos, mask := 0, state % 8;
    var limit := data.Length - 4;
    var base := (ip + 5) % TWO32;
    ghost var orig, r := data[..], Convert(data[..], ip + 5, state % 8, encoding);
    ReachedStart(orig, ip, mask, encoding);
    while true
      invariant 0 <= pos <= data.Length == |orig| && 0 <= mask < 8
      invariant Reached(orig, data[..], pos, ip, r, mask, encoding)
      decreases data.Length - pos
    {
      var p := pos;
      while p < limit && !IsBranch(data[p])
        invariant pos <= p <= data.Length && (p > pos ==> p <= limit)
        invariant forall i :: pos <= i < p ==> !IsBranch(data[i])
      {
        p := p + 1;
      }
      var d := p - pos;
      ReachedSkip(orig, data[..], pos, d, ip, r, mask, encoding);
      pos, mask := p, Fade(mask, d);
      if p >= limit {
        ReachedStop(orig, data[..], pos, ip, r, mask, encoding);
        return pos, mask;
      }
      pos, mask := Operand(data, pos, base, mask, encoding, orig, ip, r);
    }
  }

  /** The body of the loop once an opcode is found at data[pos]. */
  method Operand(data: array<byte>, pos: nat, base: u32, mask: int, encoding: bool,
                 ghost orig: seq<byte>, ghost ip: u32, ghost r: Result)
    returns (pos': nat, mask': int)
    requires 0 <= mask < 8 && pos + 4 < data.Length == |orig| && IsBranch(data[pos])
    requires Reached(orig, data[..], pos, ip, r, mask, encoding)
    requires base == (ip + 5) % TWO32
    modifies data
    ensures pos < pos' <= data.Length && 0 <= mask' < 8
    ensures Reached(orig, data[..], pos', ip, r, mask', encoding)
  {
    hide Convert, Rewrite, Store, Reached, Head, Word, Blocked;
    ghost var now := data[..];
    var blocked := mask != 0 && (mask > 4 || mask == 3 || Test86MSByte(data[pos + mask / 2 + 1]));
    BlockedAt(now, pos, mask);
    if !blocked && Test86MSByte(data[pos + 4]) {
      var v := data[pos + 1] as int + 0x100 * data[pos + 2] as int
               + 0x10000 * data[pos + 3] as int + 0x1000000 * data[pos + 4] as int;
      WordAt(now, pos);
      var cur := (base + pos) % TWO32;
      assert cur == (ip + 5 + pos) % TWO32;
      var b := Store(Rewrite(v, Offset(cur, encoding), mask));
      data[pos + 1], data[pos + 2], data[pos + 3], data[pos + 4] := b[0], b[1], b[2], b[3];
      pos', mask' := pos + 5, 0;
      assert data[..] == now[..pos + 1] + b + now[pos + 5..];
      Replaced(orig, now, data[..], pos, ip, r, mask, encoding);
    } else {
      pos', mask' := pos + 1, mask / 2 + 4;
      LeftAlone(orig, now, pos, ip, r, mask, encoding);
    }
  }

  lemma BlockedAt(now: seq<byte>, pos: nat, mask: int)
    requires pos + 4 < |now| && 0 <= mask < 8
    ensures Blocked(now[pos..], mask)
       <==> mask != 0 && (mask > 4 || mask == 3 || Test86MSByte(now[pos + mask / 2 + 1]))
  {}

  lemma WordAt(now: seq<byte>, pos: nat)
    requires pos + 4 < |now|
    ensures Word(now[pos..]) == now[pos + 1] as int + 0x100 * now[pos + 2] as int
                                + 0x10000 * now[pos + 3] as int + 0x1000000 * now[pos + 4] as int
  {}

  lemma LeftAlone(orig: seq<byte>, now: seq<byte>, pos: nat, ip: int, r: Result, mask: int, encoding: bool)
    requires Reached(orig, now, pos, ip, r, mask, encoding) && pos + 4 < |orig| && IsBranch(now[pos])
    requires Blocked(now[pos..], mask) || !Test86MSByte(now[pos + 4])
    ensures Reached(orig, now, pos + 1, ip, r, mask / 2 + 4, encoding)
  {
    hide Convert, Blocked;
    var s := orig[pos..];
    assert s == now[pos..] && s[4] == now[pos + 4] && s[0] == now[pos];
    assert now == now[..pos] + [s[0]] + now[pos + 1..];
    ReachedStep(orig, now, now, pos, ip, r, mask, encoding);
  }

  lemma Replaced(orig: seq<byte>, now: seq<byte>, now': seq<byte>,
                 pos: nat, ip: int, r: Result, mask: int, encoding: bool)
    requires Reached(orig, now, pos, ip, r, mask, encoding) && pos + 4 < |orig| && IsBranch(now[pos])
    requires !Blocked(now[pos..], mask) && Test86MSByte(now[pos + 4])
    requires var t := Offset((ip + 5 + pos) % TWO32, encoding);
             now' == now[..pos + 1] + Store(Rewrite(Word(now[pos..]), t, mask)) + now[pos + 5..]
    ensures Reached(orig, now', pos + 5, ip, r, 0, encoding)
  {
    hide Convert, Blocked, Store, Rewrite, Word;
    var s := orig[pos..];
    assert s == now[pos..] && s[4] == now[pos + 4] && s[0] == now[pos];
    RewriteWraps(Word(s), ip + 5 + pos, mask, encoding);
    var h := Head(s, ip + 5 + pos, mask, encoding);
    assert h == [s[0]] + Store(Rewrite(Word(s), Offset(ip + 5 + pos, encoding), mask));
    assert now[..pos + 1] == now[..pos] + [s[0]];
    assert now' == now[..pos] + h + now[pos + 5..];
    ReachedStep(orig, now, now', pos, ip, r, mask, encoding);
  }
}
