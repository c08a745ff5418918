/** The variable-length numbers of a 7z header, compression/LZMA/7zArcIn.c. */
module SzNumber {
  import opened Bytes

  /** A value and what is left of the data, or SZ_ERROR_ARCHIVE or SZ_ERROR_UNSUPPORTED. */
  datatype Fault = Archive | Unsupported

  datatype Read<T> = Ok(value: T, rest: seq<byte>) | Err(fault: Fault)

  /** The number of bytes that follow the first: one for every leading one bit. */
  function Extra(b: byte): (n: nat)
    ensures n <= 8
  {
    if b < 0x80 then 0 else if b < 0xC0 then 1 else if b < 0xE0 then 2 else if b < 0xF0 then 3
    else if b < 0xF8 then 4 else if b < 0xFC then 5 else if b < 0xFE then 6 else if b < 0xFF then 7 else 8
  }

  /** What the lowest byte first denotes. */
  function Little(s: seq<byte>): nat
    decreases s
  {
    if s == [] then 0 else Little(s[..|s| - 1]) + s[|s| - 1] as int * Power(|s| - 1)
  }

  function Power(n: nat): (v: nat)
    ensures v > 0
  {
    if n == 0 then 1 else 256 * Power(n - 1)
  }

  /** The bits of the first byte behind the leading ones and the zero after them. */
  function Rest(b: byte): nat {
    var n := Extra(b);
    if n == 0 then b else if n == 1 then b % 0x40 else if n == 2 then b % 0x20 else if n == 3 then b % 0x10
    else if n == 4 then b % 8 else if n == 5 then b % 4 else if n == 6 then b % 2 else 0
  }

  /** A number: the following bytes, lowest first, and the rest of the first byte above them. */
  function Number(s: seq<byte>): (r: Read<nat>)
  {
    if s == [] || |s| < 1 + Extra(s[0]) then Err(Archive) else
    var n := Extra(s[0]);
    Ok(Little(s[1..1 + n]) + Rest(s[0]) * Power(n), s[1 + n..])
  }

  /** SzReadNumber32, with a size_t of 64 bits. */
  function Number32(s: seq<byte>): Read<nat> {
    match Number(s)
    case Ok(v, rest) => if v >= 0x8000_0000 - 1 then Err(Unsupported) else Ok(v, rest)
    case Err(f) => Err(f)
  }

  /** num numbers, one after the other: the data behind them. */
  function Numbers(s: seq<byte>, num: nat): (r: Read<seq<nat>>)
    ensures r.Ok? ==> |r.value| == num
    decreases num
  {
    if num == 0 then Ok([], s) else
    match Number(s)
    case Err(f) => Err(f)
    case Ok(v, rest) =>
      match Numbers(rest, num - 1)
      case Err(f) => Err(f)
      case Ok(vs, rest') => Ok([v] + vs, rest')
  }

  /** b & mask for a single bit. */
  predicate HasBit(b: byte, mask: nat)
    requires mask > 0
  {
    (b as nat / mask) % 2 == 1
  }

  /** The mask of the bit that is looked at when i bytes are already known to follow. */
  function MaskOf(i: nat): (m: nat)
    requires i <= 8
    ensures m <= 0x80
  {
    if i == 0 then 0x80 else if i == 1 then 0x40 else if i == 2 then 0x20 else if i == 3 then 0x10
    else if i == 4 then 8 else if i == 5 then 4 else if i == 6 then 2 else if i == 7 then 1 else 0
  }

  lemma TestBit(b: byte, i: nat)
    requires i < 8 && Extra(b) >= i
    ensures MaskOf(i) > 0 && (HasBit(b, MaskOf(i)) <==> Extra(b) > i) && MaskOf(i) / 2 == MaskOf(i + 1)
    ensures Extra(b) == i ==> Rest(b) == b as int % MaskOf(i)
  {
    hide HasBit, Rest;
    if i <= 3 { TestUpper(b, i); } else { TestLower(b, i); }
    if Extra(b) == i { RestBits(b); }
  }

  lemma TestUpper(b: byte, i: nat)
    requires i <= 3 && Extra(b) >= i
    ensures HasBit(b, MaskOf(i)) <==> Extra(b) > i
  {}

  lemma TestLower(b: byte, i: nat)
    requires 3 < i < 8 && Extra(b) >= i
    ensures HasBit(b, MaskOf(i)) <==> Extra(b) > i
  {}

  lemma RestBits(b: byte)
    requires Extra(b) < 8
    ensures MaskOf(Extra(b)) > 0 && Rest(b) == b as int % MaskOf(Extra(b))
  {}

  lemma LittleMore(s: seq<byte>, n: nat)
    requires n < |s|
    ensures Little(s[..n + 1]) == Little(s[..n]) + s[n] as int * Power(n)
  {
    assert s[..n + 1][..n] == s[..n];
  }

  lemma LittleTwo(s: seq<byte>)
    requires |s| >= 2
    ensures Little(s[..1]) == s[0] && Little(s[..2]) == s[0] as int + 256 * s[1] as int
  {
    LittleMore(s, 0);
    LittleMore(s, 1);
    assert s[..0] == [];
  }

  lemma NumberIs(s: seq<byte>)
    ensures Number(s) == if s == [] || |s| < 1 + Extra(s[0]) then Err(Archive)
                         else Ok(Little(s[1..1 + Extra(s[0])]) + Rest(s[0]) * Power(Extra(s[0])), s[1 + Extra(s[0])..])
  {}

  lemma MasksAre()
    ensures MaskOf(0) == 0x80 && MaskOf(1) == 0x40 && MaskOf(2) == 0x20
  {}

  /** No byte or one byte follows. */
  lemma NumberShort(s: seq<byte>)
    requires s != []
    ensures Extra(s[0]) == 0 ==> Number(s) == Ok(s[0] as nat, s[1..])
    ensures Extra(s[0]) == 1 && |s| > 1 ==> Number(s) == Ok((s[0] as int % 0x40) * 256 + s[1] as int, s[2..])
  {
    if Extra(s[0]) == 1 && |s| > 1 {
      LittleTwo(s[1..] + [0]);
      assert (s[1..] + [0])[..1] == s[1..2];
      assert Power(1) == 256;
    }
  }

  lemma RestFull(b: byte)
    requires Extra(b) >= 8
    ensures Extra(b) == 8 && Rest(b) * Power(8) == 0
  {}

  /** CSzData: the bytes not yet read. */
  class SzData {
    var Data: seq<byte>

    constructor (data: seq<byte>)
      ensures Data == data
    {
      Data := data;
    }

    /** SZ_READ_BYTE. */
    method ReadByte() returns (ok: bool, b: byte)
      modifies this
      ensures ok == (old(Data) != [])
      ensures if ok then b == old(Data)[0] && Data == old(Data)[1..] else Data == old(Data)
    {
      if |Data| == 0 { return false, 0; }
      b := Data[0];
      Data := Data[1..];
      ok := true;
    }

    /** ReadNumber. */
    method ReadNumber() returns (ok: bool, value: nat)
      modifies this
      ensures ok == Number(old(Data)).Ok?
      ensures ok ==> Number(old(Data)) == Ok(value, Data)
    {
      hide Little, Power, Extra, Rest, HasBit, MaskOf, Number;
      ghost var s := Data;
      NumberIs(s);
      var firstByte, v, high, b;
      ok, firstByte := ReadByte();
      if !ok { return false, 0; }
      TestBit(firstByte, 0);
      MasksAre();
      NumberShort(s);
      if !HasBit(firstByte, 0x80) {
        return true, firstByte;
      }
      ok, v := ReadByte();
      if !ok { return false, 0; }
      TestBit(firstByte, 1);
      if !HasBit(firstByte, 0x40) {
        return true, firstByte as int % 0x40 * 256 + v as int;
      }
      ok, high := ReadByte();
      if !ok { return false, 0; }
      value := v as int + high as int * 256;
      LittleTwo(s[1..]);
      var mask, i := 0x20, 2;
      while i < 8
        invariant 2 <= i <= 8 && mask == MaskOf(i) && Extra(firstByte) >= i && |s| > i
        invariant value == Little(s[1..][..i]) && Data == s[1 + i..]
      {
        TestBit(firstByte, i);
        if !HasBit(firstByte, mask) {
          value := value + firstByte as int % mask * Power(i);
          assert s[1..][..i] == s[1..1 + i];
          return true, value;
        }
        ok, b := ReadByte();
        if !ok { return false, 0; }
        LittleMore(s[1..], i);
        value := value + b as int * Power(i);
        mask := mask / 2;
        i := i + 1;
      }
      assert s[1..][..8] == s[1..9];
      RestFull(firstByte);
      ok := true;
    }

    /** SzReadNumber32; false stands for SZ_ERROR_ARCHIVE or SZ_ERROR_UNSUPPORTED. */
    method ReadNumber32() returns (ok: bool, value: nat, fault: Fault)
      modifies this
      ensures if ok then Number32(old(Data)) == Ok(value, Data) else Number32(old(Data)) == Err(fault)
    {
      hide Little, Power, Rest, Extra, Number;
      fault := Archive;
      NumberShortest(Data);
      if |Data| == 0 { return false, 0, Archive; }
      var firstByte := Data[0];
      if firstByte < 0x80 {
        value := firstByte;
        Data := Data[1..];
        return true, value, Archive;
      }
      ok, value := ReadNumber();
      if !ok { return false, 0, Archive; }
      if value >= 0x8000_0000 - 1 { return false, 0, Unsupported; }
    }

    /** SkipNumbers. */
    method SkipNumbers(num: nat) returns (ok: bool)
      modifies this
      ensures ok == Numbers(old(Data), num).Ok?
      ensures Data == if ok then Numbers(old(Data), num).rest else old(Data)
    {
      hide Little, Power, Rest, Extra, Number, HasBit, MaskOf;
      var sd := Data;
      var left: nat := num;
      while left != 0
        invariant left <= num && Data == old(Data)
        invariant SameEnd(Numbers(sd, left), Numbers(Data, num))
      {
        NumbersIs(sd, left);
        SkipOne(sd);
        if |sd| == 0 { return false; }
        var firstByte := sd[0];
        sd := sd[1..];
        left := left - 1;
        TestBit(firstByte, 0);
        MasksAre();
        if !HasBit(firstByte, 0x80) { continue; }
        TestBit(firstByte, 1);
        if !HasBit(firstByte, 0x40) {
          if |sd| == 0 { return false; }
          sd := sd[1..];
          continue;
        }
        var mask, i := 0x20, 2;
        while i < 8 && HasBit(firstByte, mask)
          invariant 2 <= i <= 8 && mask == MaskOf(i) && Extra(firstByte) >= i
          invariant (i < 8 ==> mask > 0) && Data == old(Data)
        {
          TestBit(firstByte, i);
          mask := mask / 2;
          i := i + 1;
          if i < 8 { TestBit(firstByte, i); }
        }
        if i < 8 { TestBit(firstByte, i); }
        if i > |sd| { return false; }
        sd := sd[i..];
      }
      Data := sd;
      ok := true;
    }
  }

  lemma NumberShortest(s: seq<byte>)
    ensures s == [] ==> Number(s) == Err(Archive)
    ensures s != [] && s[0] < 0x80 ==> Number(s) == Ok(s[0] as nat, s[1..])
    ensures Number(s).Err? ==> Number(s) == Err(Archive)
  {
    if s != [] { NumberShort(s); }
  }

  /** Whether the data suffices, and where it goes on. */
  lemma SkipOne(s: seq<byte>)
    ensures Number(s).Ok? <==> s != [] && |s| >= 1 + Extra(s[0])
    ensures Number(s).Ok? ==> Number(s).rest == s[1 + Extra(s[0])..]
  {}

  /** Two readings fail together or end at the same place. */
  ghost predicate SameEnd<S, T>(a: Read<S>, b: Read<T>) {
    a.Ok? == b.Ok? && (a.Ok? ==> a.rest == b.rest)
  }

  lemma NumbersIs(s: seq<byte>, num: nat)
    requires num > 0
    ensures Number(s).Err? ==> Numbers(s, num).Err?
    ensures Number(s).Ok? ==> SameEnd(Numbers(Number(s).rest, num - 1), Numbers(s, num))
  {
    hide Number;
  }
}
