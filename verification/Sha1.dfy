/** The driver's streaming SHA-1: a 64-byte buffer, a two-word bit count and a rolling schedule. */
module Sha1 {
  import opened Sha1Spec

  // The forms the round macros use for the same Boolean functions.

  lemma ChForm(x: Word, y: Word, z: Word)
    ensures (x & (y ^ z)) ^ z == Ch(x, y, z)
  {
  }

  lemma MajForm(x: Word, y: Word, z: Word)
    ensures ((x | y) & z) | (x & y) == Maj(x, y, z)
  {
  }

  /** Loading a word low byte first and swapping it gives the big-endian word. */
  lemma SwappedLoad(b0: bv8, b1: bv8, b2: bv8, b3: bv8)
    ensures Swap(LoadLittleEndian(b0, b1, b2, b3)) == WordOf(b0, b1, b2, b3)
  {
  }

  function LoadLittleEndian(b0: bv8, b1: bv8, b2: bv8, b3: bv8): Word {
    (b3 as Word << 24) | (b2 as Word << 16) | (b1 as Word << 8) | b0 as Word
  }

  function Swap(l: Word): Word {
    (((l << 24) | (l >> 8)) & 0xFF00FF00) | (((l << 8) | (l >> 24)) & 0x00FF00FF)
  }

  /** The 16-word window once t words have been expanded: the newest word of each slot. */
  ghost predicate Window(m: Words, block: seq<Word>, t: nat) {
    && |block| == 16
    && (forall k :: t <= k < 16 ==> Swap(block[k]) == m[k])
    && (forall k :: 0 <= k < t <= k + 16 ==> block[Slot(k)] == W(m, k))
  }

  function Slot(k: nat): nat {
    k % 16
  }

  lemma Slots(t: nat)
    requires t >= 16
    ensures (t + 13) % 16 == Slot(t - 3) && (t + 8) % 16 == Slot(t - 8) && (t + 2) % 16 == Slot(t - 14) && Slot(t) == Slot(t - 16)
  {
  }

  lemma SlotsDiffer(k: nat, t: nat)
    requires k < t < k + 16
    ensures Slot(k) != Slot(t)
  {
  }

  /** Expands word t in place. */
  method ExpandWord(block: array<Word>, ghost m: Words, t: nat) returns (w: Word)
    requires block.Length == 16 && Window(m, block[..], t)
    modifies block
    ensures w == W(m, t)
    ensures Window(m, block[..], t + 1)
  {
    hide Swap, Rotl1;
    ghost var before := block[..];
    if t < 16 {
      w := Swap(block[t]);
      block[t] := w;
    } else {
      Slots(t);
      w := Rotl1(block[(t + 13) % 16] ^ block[(t + 8) % 16] ^ block[(t + 2) % 16] ^ block[t % 16]);
      block[t % 16] := w;
    }
    hide W, Slot;
    assert block[..] == before[Slot(t) := w];
    forall k | 0 <= k < t + 1 <= k + 16
      ensures block[..][Slot(k)] == W(m, k)
    {
      if k < t {
        SlotsDiffer(k, t);
      }
    }
  }

  /** The Boolean function the round macro of round t computes. */
  function MacroF(t: nat, w: Word, x: Word, y: Word): Word {
    if t < 20 then (w & (x ^ y)) ^ y
    else if t < 40 then w ^ x ^ y
    else if t < 60 then ((w | x) & y) | (w & x)
    else w ^ x ^ y
  }

  lemma MacroForm(t: nat, w: Word, x: Word, y: Word)
    ensures MacroF(t, w, x, y) == F(t, w, x, y)
  {
    hide Ch, Maj;
    ChForm(w, x, y);
    MajForm(w, x, y);
  }

  /** The sum in the order the macros add it up. */
  function MacroSum(z: Word, f: Word, word: Word, k: Word, v5: Word): Word {
    z + f + word + k + v5
  }

  lemma MacroSumIsSum5(z: Word, f: Word, word: Word, k: Word, v5: Word)
    ensures MacroSum(z, f, word, k, v5) == Sum5(v5, f, z, k, word)
  {
  }

  /** One round macro: z and w are updated in place, v, x and y are only read. */
  method Round(v: Word, w: Word, x: Word, y: Word, z: Word, t: nat, block: array<Word>, ghost h: Registers, ghost m: Words)
    returns (z': Word, w': Word)
    requires block.Length == 16 && Window(m, block[..], t) && t < 80
    requires Rounds(h, m, t) == Registers(v, w, x, y, z)
    modifies block
    ensures Window(m, block[..], t + 1)
    ensures Rounds(h, m, t + 1) == Registers(z', v, w', x, y)
  {
    hide W, Window, Rotl5, Rotl30, MacroF, F, K, Rounds, Sum5, MacroSum;
    var word := ExpandWord(block, m, t);
    z' := MacroSum(z, MacroF(t, w, x, y), word, K(t), Rotl5(v));
    MacroForm(t, w, x, y);
    MacroSumIsSum5(z, MacroF(t, w, x, y), word, K(t), Rotl5(v));
    w' := Rotl30(w);
    NextRound(h, m, t);
  }

  lemma NextRound(h: Registers, m: Words, t: nat)
    ensures Rounds(h, m, t + 1) == Next(Rounds(h, m, t), t, W(m, t))
  {
    hide W, Next;
  }

  /** Compresses one chunk. Five rounds bring every register name back to its place. */
  method Transform(h: Registers, chunk: Chunk) returns (h': Registers)
    ensures h' == Compress(h, chunk)
  {
    hide W, Rounds, WordsOf, Window, Sum;
    ghost var m := WordsOf(chunk);
    var block := LoadBlock(chunk);
    var a, b, c, d, e := h.a, h.b, h.c, h.d, h.e;
    NoRounds(h, m);
    var t := 0;
    while t < 80
      invariant t <= 80 && t % 5 == 0
      invariant Window(m, block[..], t)
      invariant Rounds(h, m, t) == Registers(a, b, c, d, e)
    {
      a, b, c, d, e := FiveRounds(a, b, c, d, e, t, block, h, m);
      t := t + 5;
    }
    h' := Sum(h, Registers(a, b, c, d, e));
  }

  method FiveRounds(a0: Word, b0: Word, c0: Word, d0: Word, e0: Word, t: nat, block: array<Word>, ghost h: Registers, ghost m: Words)
    returns (a: Word, b: Word, c: Word, d: Word, e: Word)
    requires block.Length == 16 && Window(m, block[..], t) && t <= 75
    requires Rounds(h, m, t) == Registers(a0, b0, c0, d0, e0)
    modifies block
    ensures Window(m, block[..], t + 5)
    ensures Rounds(h, m, t + 5) == Registers(a, b, c, d, e)
  {
    hide W, Rounds, Window;
    a, b, c, d, e := a0, b0, c0, d0, e0;
    e, b := Round(a, b, c, d, e, t, block, h, m);
    d, a := Round(e, a, b, c, d, t + 1, block, h, m);
    c, e := Round(d, e, a, b, c, t + 2, block, h, m);
    b, d := Round(c, d, e, a, b, t + 3, block, h, m);
    a, c := Round(b, c, d, e, a, t + 4, block, h, m);
  }

  method LoadBlock(chunk: Chunk) returns (block: array<Word>)
    ensures fresh(block) && block.Length == 16 && Window(WordsOf(chunk), block[..], 0)
  {
    hide LoadLittleEndian, Swap, WordOf;
    block := new Word[16](t requires 0 <= t < 16 =>
      LoadLittleEndian(chunk[4 * t], chunk[4 * t + 1], chunk[4 * t + 2], chunk[4 * t + 3]));
    forall k | 0 <= k < 16
      ensures Swap(block[k]) == WordsOf(chunk)[k]
    {
      SwappedLoad(chunk[4 * k], chunk[4 * k + 1], chunk[4 * k + 2], chunk[4 * k + 3]);
    }
  }

  lemma NoRounds(h: Registers, m: Words)
    ensures Rounds(h, m, 0) == h
  {
  }
}
