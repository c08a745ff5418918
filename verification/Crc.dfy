/** The CRC of compression/LZMA/7zCrc.c and 7zCrcOpt.c: table lookups of one, four and eight bytes, in
    both byte orders, against the bit by bit definition (section 8 of RFC 1952). */
module Crc {
  type word = bv32

  function Poly(): word { 0xEDB88320 }

  function X(a: word, b: word): word { a ^ b }

  function Half(r: word): word { r >> 1 }

  predicate Odd(r: word) { r & 1 == 1 }

  function Low(r: word): word { r & 0xFF }

  function Down(r: word): word { r >> 8 }

  function Up(r: word): word { r << 8 }

  /** One bit: division by the polynomial, lowest bit first. */
  function BitStep(r: word): word {
    if Odd(r) then X(Half(r), Poly()) else Half(r)
  }

  function Bits(n: nat, r: word): word
    decreases n
  {
    if n == 0 then r else Bits(n - 1, BitStep(r))
  }

  function Eight(r: word): word { Bits(8, r) }

  function Wide(b: bv8): word { b as bv32 }

  /** The definition, a whole byte at a time. */
  function Update(v: word, s: seq<bv8>): word
    decreases s
  {
    if s == [] then v else Update(Eight(X(v, Wide(s[0]))), s[1..])
  }

  lemma CodeStep(r: word)
    ensures (r >> 1) ^ (0xEDB88320 & (0 - (r & 1))) == BitStep(r)
  {}

  lemma HalfX(a: word, b: word)
    ensures Half(X(a, b)) == X(Half(a), Half(b))
    ensures Odd(X(a, b)) <==> Odd(a) != Odd(b)
  {}

  lemma Comm(a: word, b: word)
    ensures X(a, b) == X(b, a)
  {}

  lemma Assoc(a: word, b: word, c: word)
    ensures X(X(a, b), c) == X(a, X(b, c))
  {}

  lemma Cancel(a: word, b: word)
    ensures X(X(a, b), b) == a
  {}

  lemma BitStepLinear(a: word, b: word)
    ensures BitStep(X(a, b)) == X(BitStep(a), BitStep(b))
  {
    hide Odd, X, Half, Poly;
    var h, k, p := Half(a), Half(b), Poly();
    HalfX(a, b);
    Assoc(h, k, p);
    Comm(k, p);
    Assoc(h, p, k);
    Assoc(X(h, p), k, p);
    Cancel(X(h, k), p);
    Assoc(X(h, p), p, k);
    Cancel(h, p);
  }

  lemma {:induction false} BitsLinear(n: nat, a: word, b: word)
    ensures Bits(n, X(a, b)) == X(Bits(n, a), Bits(n, b))
    decreases n
  {
    hide BitStep, X;
    if n > 0 {
      BitStepLinear(a, b);
      BitsLinear(n - 1, BitStep(a), BitStep(b));
    }
  }

  function Half4(h: word): word { Half(Half(Half(Half(h)))) }

  /** An even word is only shifted. */
  lemma Evens(h: word)
    requires h & 0xF == 0
    ensures !Odd(h) && !Odd(Half(h)) && !Odd(Half(Half(h))) && !Odd(Half(Half(Half(h))))
  {}

  lemma LowHalves(h: word)
    requires Low(h) == 0
    ensures h & 0xF == 0 && Half4(h) & 0xF == 0
  {}

  lemma DownIs(h: word)
    ensures Down(h) == Half4(Half4(h))
  {}

  lemma BitsIs(n: nat, r: word)
    ensures Bits(n, r) == if n == 0 then r else Bits(n - 1, BitStep(r))
  {}

  lemma EightHigh(h: word)
    requires Low(h) == 0
    ensures Eight(h) == Down(h)
  {
    hide Odd, X, Half, Poly, Low, Down, Bits;
    var q := Half4(h);
    LowHalves(h);
    Evens(h);
    Evens(q);
    DownIs(h);
    BitsIs(8, h);
    BitsIs(7, Half(h));
    BitsIs(6, Half(Half(h)));
    BitsIs(5, Half(Half(Half(h))));
    BitsIs(4, q);
    BitsIs(3, Half(q));
    BitsIs(2, Half(Half(q)));
    BitsIs(1, Half(Half(Half(q))));
    BitsIs(0, Down(h));
  }

  function High(r: word): word { r & 0xFFFF_FF00 }

  lemma Parts(r: word)
    ensures r == X(Low(r), High(r)) && Low(High(r)) == 0 && Down(High(r)) == Down(r)
  {}

  /** The step that every table lookup rests on. */
  lemma EightSplit(r: word)
    ensures Eight(r) == X(Eight(Low(r)), Down(r))
  {
    hide X, Low, High, Down, Bits;
    Parts(r);
    BitsLinear(8, Low(r), High(r));
    EightHigh(High(r));
  }

  /** n whole bytes of zeros. */
  function Zeros(n: nat, r: word): word
    decreases n
  {
    if n == 0 then r else Zeros(n - 1, Eight(r))
  }

  lemma {:induction false} ZerosLinear(n: nat, a: word, b: word)
    ensures Zeros(n, X(a, b)) == X(Zeros(n, a), Zeros(n, b))
    decreases n
  {
    hide X, Bits;
    if n > 0 {
      BitsLinear(8, a, b);
      ZerosLinear(n - 1, Eight(a), Eight(b));
    }
  }

  lemma {:induction false} ZerosLast(n: nat, r: word)
    ensures Zeros(n + 1, r) == Eight(Zeros(n, r))
    decreases n
  {
    hide Eight;
    if n > 0 { ZerosLast(n - 1, Eight(r)); }
  }

  lemma ZerosSplit(n: nat, r: word)
    ensures Zeros(n + 1, r) == X(Zeros(n + 1, Low(r)), Zeros(n, Down(r)))
  {
    hide X, Low, Down, Eight;
    EightSplit(r);
    ZerosLinear(n, Eight(Low(r)), Down(r));
  }

  function Byte1(r: word): word { (r >> 8) & 0xFF }

  function Byte2(r: word): word { (r >> 16) & 0xFF }

  function Byte3(r: word): word { r >> 24 }

  lemma Bytes(r: word)
    ensures Low(Down(r)) == Byte1(r) && Low(Down(Down(r))) == Byte2(r) && Down(Down(Down(r))) == Byte3(r)
  {}

  /** Four bytes of a word, each with its own table. */
  function Slices(n: nat, r: word): word {
    X(X(X(Zeros(n + 4, Low(r)), Zeros(n + 3, Byte1(r))), Zeros(n + 2, Byte2(r))), Zeros(n + 1, Byte3(r)))
  }

  lemma SlicesAre(n: nat, r: word)
    ensures Slices(n, r) == Zeros(n + 4, r)
  {
    hide X, Low, Down, Zeros, Byte1, Byte2, Byte3;
    Bytes(r);
    ZerosSplit(n + 3, r);
    ZerosSplit(n + 2, Down(r));
    ZerosSplit(n + 1, Down(Down(r)));
    var a, b, c, d := Zeros(n + 4, Low(r)), Zeros(n + 3, Byte1(r)), Zeros(n + 2, Byte2(r)), Zeros(n + 1, Byte3(r));
    Assoc(b, c, d);
    Assoc(a, b, c);
    Assoc(X(a, b), c, d);
    Assoc(a, b, X(c, d));
  }

  /** A word in memory, lowest byte first. */
  function Word(b0: bv8, b1: bv8, b2: bv8, b3: bv8): word {
    X(Wide(b0), Up(X(Wide(b1), Up(X(Wide(b2), Up(Wide(b3)))))))
  }

  lemma UpBack(w: word)
    requires w < 0x100_0000
    ensures Low(Up(w)) == 0 && Down(Up(w)) == w
  {}

  /** A byte now, and the rest w of the word later, or both at once. */
  lemma ByteFirst(n: nat, v: word, b: bv8, w: word)
    requires w < 0x100_0000
    ensures Zeros(n, X(Eight(X(v, Wide(b))), w)) == Zeros(n + 1, X(v, X(Wide(b), Up(w))))
  {
    hide X, Low, Down, Up, Bits, Wide;
    UpBack(w);
    EightHigh(Up(w));
    BitsLinear(8, X(v, Wide(b)), Up(w));
    Assoc(v, Wide(b), Up(w));
  }

  lemma Small(b1: bv8, b2: bv8, b3: bv8)
    ensures Wide(b3) < 0x100_0000 && X(Wide(b2), Up(Wide(b3))) < 0x100_0000
    ensures X(Wide(b1), Up(X(Wide(b2), Up(Wide(b3))))) < 0x100_0000
  {}

  lemma Update4(v: word, s: seq<bv8>)
    requires |s| >= 4
    ensures Update(v, s) == Update(Zeros(4, X(v, Word(s[0], s[1], s[2], s[3]))), s[4..])
  {
    hide X, Up, Wide, Eight, Zeros, Update;
    Small(s[1], s[2], s[3]);
    var w3 := Wide(s[3]);
    var w2 := X(Wide(s[2]), Up(w3));
    var w1 := X(Wide(s[1]), Up(w2));
    var v1 := Eight(X(v, Wide(s[0])));
    var v2 := Eight(X(v1, Wide(s[1])));
    var v3 := Eight(X(v2, Wide(s[2])));
    ByteFirst(3, v, s[0], w1);
    ByteFirst(2, v1, s[1], w2);
    ByteFirst(1, v2, s[2], w3);
    ZerosOne(X(v3, w3));
    UpdateIs(v, s);
    UpdateIs(v1, s[1..]);
    UpdateIs(v2, s[2..]);
    UpdateIs(v3, s[3..]);
    assert s[1..][1..] == s[2..] && s[2..][1..] == s[3..] && s[3..][1..] == s[4..];
  }

  lemma ZerosOne(r: word)
    ensures Zeros(1, r) == Eight(r)
  {
    hide Eight;
  }

  lemma UpdateIs(v: word, s: seq<bv8>)
    requires s != []
    ensures Update(v, s) == Update(Eight(X(v, Wide(s[0]))), s[1..])
  {
    hide Eight, X, Wide;
  }

  /** The definition bit by bit: the low n bits of b enter one after the other. */
  function Serial(v: word, b: word, n: nat): word
    decreases n
  {
    if n == 0 then v else Serial(BitStep(X(v, b & 1)), Half(b), n - 1)
  }

  function SerialCrc(v: word, s: seq<bv8>): word
    decreases s
  {
    if s == [] then v else SerialCrc(Serial(v, Wide(s[0]), 8), s[1..])
  }

  lemma LastBit(b: word)
    ensures b == X(b & 1, b & 0xFFFF_FFFE) && !Odd(b & 0xFFFF_FFFE) && Half(b & 0xFFFF_FFFE) == Half(b)
  {}

  lemma SerialStep(v: word, b: word)
    ensures BitStep(X(v, b)) == X(BitStep(X(v, b & 1)), Half(b))
  {
    hide X, Odd, Half, Poly;
    LastBit(b);
    var o, e := b & 1, b & 0xFFFF_FFFE;
    Assoc(v, o, e);
    BitStepLinear(X(v, o), e);
  }

  lemma HalfBound(b: word, n: nat)
    requires 0 < n <= 8 && b < (1 << n)
    ensures Half(b) < (1 << (n - 1))
  {
  }

  lemma {:induction false} SerialIs(v: word, b: word, n: nat)
    requires n <= 8 && b < (1 << n)
    ensures Serial(v, b, n) == Bits(n, X(v, b))
    decreases n
  {
    hide BitStep, Half;
    if n == 0 {
      assert b == 0;
    } else {
      SerialStep(v, b);
      HalfBound(b, n);
      SerialIs(BitStep(X(v, b & 1)), Half(b), n - 1);
    }
  }

  lemma WideBound(b: bv8)
    ensures Wide(b) < (1 << 8)
  {}

  /** Eight steps on a whole byte are the bit by bit definition. */
  lemma {:induction false} UpdateIsSerial(v: word, s: seq<bv8>)
    ensures Update(v, s) == SerialCrc(v, s)
    decreases s
  {
    hide X, Wide, Serial, Bits;
    if s != [] {
      WideBound(s[0]);
      SerialIs(v, Wide(s[0]), 8);
      UpdateIsSerial(Eight(X(v, Wide(s[0]))), s[1..]);
    }
  }
}
