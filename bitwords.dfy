/** Words carried by the SPI bit buffers, and the pairing of channels for
    differential readings. Bits are booleans, most significant bit first. */
module BitWords {
  import opened Arith

  /** rx_word: the received bits read as an MSB-first unsigned integer. */
  function Word(s: seq<bool>): (r: nat)
    ensures r < Pow2(|s|)
    decreases |s|
  {
    if s == [] then 0
    else 2 * Word(s[..|s| - 1]) + (if s[|s| - 1] then 1 else 0)
  }

  /** tx_word(v, n): the n bits queued for transmission, MSB first; the
      emulator only ever queues a value that fits in n bits. */
  function Encode(v: nat, n: nat): (r: seq<bool>)
    requires v < Pow2(n)
    ensures |r| == n
    ensures Word(r) == v
    decreases n
  {
    if n == 0 then []
    else
      var front := Encode(v / 2, n - 1);
      WordSnoc(front, v % 2 == 1);
      front + [v % 2 == 1]
  }

  /** Appending a bit doubles the word and adds the bit. */
  lemma WordSnoc(s: seq<bool>, b: bool)
    ensures Word(s + [b]) == 2 * Word(s) + (if b then 1 else 0)
  {
    assert (s + [b])[..|s|] == s;
  }

  /** Encoding the word of a bit string gives that bit string back. */
  lemma {:induction false} EncodeWord(s: seq<bool>)
    ensures Encode(Word(s), |s|) == s
    decreases |s|
  {
    if s != [] {
      var front := s[..|s| - 1];
      EncodeWord(front);
      assert Word(s) / 2 == Word(front);
      assert s == front + [s[|s| - 1]];
    }
  }

  /** Two bit strings of one length are equal exactly when their words are. */
  lemma WordInjective(s: seq<bool>, t: seq<bool>)
    requires |s| == |t|
    ensures Word(s) == Word(t) <==> s == t
  {
    if Word(s) == Word(t) {
      EncodeWord(s);
      EncodeWord(t);
    }
  }

  /** c ^ 1: the other member of the pair {2k, 2k + 1} that holds c. */
  function Pair(c: nat): (r: nat)
    ensures r / 2 == c / 2
    ensures r % 2 != c % 2
  {
    if c % 2 == 0 then c + 1 else c - 1
  }

  lemma PairInvolution(c: nat)
    ensures Pair(Pair(c)) == c
  {
  }

  /** When a channel index fits in k >= 1 address bits, so does its partner. */
  lemma PairInRange(c: nat, k: nat)
    requires k >= 1 && c < Pow2(k)
    ensures Pair(c) < Pow2(k)
  {
    var p := Pow2(k);
    if c % 2 == 0 {
      assert p % 2 == 0;
      assert c + 1 != p;
    }
  }
}
