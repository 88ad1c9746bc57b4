// Bytes, 16-bit words and 512-byte blocks as fsutil sees them: a block is
// read and written as bytes, and as 256 little-endian words.
module Words {
  type byte = n: int | 0 <= n < 0x100
  type word = n: int | 0 <= n < 0x10000
  type Block = b: seq<byte> | |b| == 512 witness seq(512, _ => 0)

  // What memset leaves in a block buffer.
  function Zeros(): (b: Block)
    ensures forall j: nat | j < 256 :: WordAt(b, j) == 0
  {
    seq(512, _ => 0)
  }

  function WordAt(b: Block, i: nat): word
    requires i < 256
  {
    (b[2 * i] as int) + 0x100 * (b[2 * i + 1] as int)
  }

  function SetWord(b: Block, i: nat, w: word): (r: Block)
    requires i < 256
    ensures forall j: nat | j < 256 :: WordAt(r, j) == if j == i then w else WordAt(b, j)
  {
    b[2 * i := w % 0x100][2 * i + 1 := w / 0x100]
  }

  // The block as its 256 words.
  function WordsOf(b: Block): (ws: seq<word>)
    ensures |ws| == 256
    ensures forall j: nat | j < 256 :: ws[j] == WordAt(b, j)
  {
    seq(256, i requires 0 <= i < 256 => WordAt(b, i))
  }

  lemma WordsOfSetWord(b: Block, i: nat, w: word)
    requires i < 256
    ensures WordsOf(SetWord(b, i, w)) == WordsOf(b)[i := w]
  {
  }

  // The first |ws| words of `b` from index `at` on are replaced by ws.
  function SetWords(b: Block, at: nat, ws: seq<word>): (r: Block)
    requires at + |ws| <= 256
    ensures forall j: nat | j < 256 ::
      WordAt(r, j) == if at <= j < at + |ws| then ws[j - at] else WordAt(b, j)
    decreases |ws|
  {
    if ws == [] then b
    else SetWords(SetWord(b, at, ws[0]), at + 1, ws[1..])
  }

  lemma SetNoWords(b: Block, at: nat)
    requires at <= 256
    ensures SetWords(b, at, []) == b
  {
  }

  lemma {:induction false} SetWordsAppend(b: Block, at: nat, ws: seq<word>, w: word)
    requires at + |ws| < 256
    ensures SetWords(b, at, ws + [w]) == SetWord(SetWords(b, at, ws), at + |ws|, w)
    decreases |ws|
  {
    if ws != [] {
      assert (ws + [w])[1..] == ws[1..] + [w];
      SetWordsAppend(SetWord(b, at, ws[0]), at + 1, ws[1..], w);
    }
  }

  // No element occurs twice.
  ghost predicate Once(m: multiset<word>) {
    forall x: word :: m[x] <= 1
  }

  function Reverse(s: seq<word>): (r: seq<word>)
    ensures |r| == |s|
    ensures forall i | 0 <= i < |s| :: r[i] == s[|s| - 1 - i]
    ensures multiset(r) == multiset(s)
  {
    if s == [] then [] else
      assert s == [s[0]] + s[1..];
      Reverse(s[1..]) + [s[0]]
  }

  lemma {:induction false} ReverseConcat(a: seq<word>, b: seq<word>)
    ensures Reverse(a + b) == Reverse(b) + Reverse(a)
  {
    assert forall i | 0 <= i < |a + b| :: Reverse(a + b)[i] == (Reverse(b) + Reverse(a))[i];
  }
}
