/** What the BCJ2 encoder and decoder agree on: streams, opcodes, contexts, words. */
module Bcj2 {
  import opened Bytes
  import opened RangeCoder

  /** A branch opcode: E8, E9, or 0F followed by 80..8F. */
  predicate IsBranch(prev: byte, b: byte) {
    b / 2 == 0x74 || (prev == 0x0F && b / 16 == 8)
  }

  const NUM_PROBS: nat := 2 + 256

  type Probs = s: seq<prob> | |s| == 2 + 256 witness seq(258, _ => 1024)

  function InitProbs(): Probs {
    seq(NUM_PROBS, _ => BIT_MODEL_TOTAL / 2)
  }

  function ProbIndex(b: byte, prev: byte): (i: nat)
    ensures i < NUM_PROBS
  {
    if b == 0xE8 then 2 + prev else if b == 0xE9 then 1 else 0
  }

  function UpdateAt(probs: Probs, i: nat, bit: bool): Probs
    requires i < NUM_PROBS
  {
    probs[i := Update(probs[i], bit)]
  }

  function GetUi32(s: seq<byte>): (v: u32)
    requires |s| >= 4
  {
    s[0] as int + 0x100 * s[1] as int + 0x1_0000 * s[2] as int + 0x100_0000 * s[3] as int
  }

  function SetUi32(v: u32): (s: seq<byte>)
    ensures |s| == 4
  {
    [v % 0x100, v / 0x100 % 0x100, v / 0x1_0000 % 0x100, v / 0x100_0000]
  }

  function GetBe32(s: seq<byte>): u32
    requires |s| >= 4
  {
    GetUi32([s[3], s[2], s[1], s[0]])
  }

  function SetBe32(v: u32): (s: seq<byte>)
    ensures |s| == 4
  {
    var u := SetUi32(v);
    [u[3], u[2], u[1], u[0]]
  }

  lemma SetGetUi32(s: seq<byte>)
    requires |s| >= 4
    ensures SetUi32(GetUi32(s)) == s[..4]
  {
    var v := GetUi32(s);
    var v1 := s[1] as int + 0x100 * s[2] as int + 0x1_0000 * s[3] as int;
    var v2 := s[2] as int + 0x100 * s[3] as int;
    DivModUnique(v, 0x100, v1, s[0]);
    DivModUnique(v1, 0x100, v2, s[1]);
    DivModUnique(v2, 0x100, s[3], s[2]);
    DivModUnique(v, 0x1_0000, v2, s[0] as int + 0x100 * s[1] as int);
    DivModUnique(v, 0x100_0000, s[3], s[0] as int + 0x100 * s[1] as int + 0x1_0000 * s[2] as int);
  }

  lemma GetSetUi32(v: u32)
    ensures GetUi32(SetUi32(v)) == v
  {
    DivTwice(v, 0x100, 0x100);
    DivTwice(v, 0x1_0000, 0x100);
  }

  lemma GetSetBe32(v: u32, rest: seq<byte>)
    ensures GetBe32(SetBe32(v) + rest) == v
  {
    GetSetUi32(v);
    var u := SetUi32(v);
    assert [u[0], u[1], u[2], u[3]] == u;
  }

  /** The byte before s[i], when prev came before s. */
  function PrevAt(s: seq<byte>, prev: byte, i: nat): byte
    requires i <= |s|
  {
    if i == 0 then prev else s[i - 1]
  }

  /** Nothing in s[..n] is a branch opcode. */
  predicate NoBranch(s: seq<byte>, prev: byte, n: nat)
    requires n <= |s|
  {
    forall i: nat | i < n :: !IsBranch(PrevAt(s, prev, i), s[i])
  }

  lemma NoBranchStep(s: seq<byte>, prev: byte, n: nat)
    requires n < |s| && NoBranch(s, prev, n) && !IsBranch(PrevAt(s, prev, n), s[n])
    ensures NoBranch(s, prev, n + 1)
  {
    hide IsBranch;
  }

  /** The copy loop that the encoder and the decoder share: how many of the
      first lim bytes come before a branch opcode. */
  method Scan(s: seq<byte>, prev: byte, lim: nat) returns (n: nat)
    requires 0 < lim <= |s|
    ensures n <= lim && NoBranch(s, prev, n)
    ensures n < lim ==> IsBranch(PrevAt(s, prev, n), s[n])
  {
    n := 0;
    assert NoBranch(s, prev, 0);
    if prev == 0x0F && s[0] / 16 == 8 { return; }
    hide NoBranch;
    while true
      invariant n < lim && NoBranch(s, prev, n)
      invariant PrevAt(s, prev, n) == 0x0F ==> s[n] / 16 != 8
      decreases lim - n
    {
      var b := s[n];
      if b != 0x0F {
        if b / 2 == 0x74 { return; }
        NoBranchStep(s, prev, n);
        n := n + 1;
        if n != lim { continue; }
        return;
      }
      NoBranchStep(s, prev, n);
      n := n + 1;
      if n == lim { return; }
      if s[n] / 16 != 8 { continue; }
      return;
    }
  }
}
