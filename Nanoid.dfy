/** The non-secure `nanoid` shim (frontend/src/shims/nanoid-non-secure.ts): an id of `size`
    characters, each picked from a 64-character alphabet by a random draw. The draws of
    `Math.random()` are supplied by the caller. */
module Nanoid {
  import opened Wrappers

  // The runs `ALPHABET` is made of.
  const Digits := "0123456789"
  const Upper := "ABCDEFGHIJKLMNOPQRSTUVWXYZ"
  const Lower := "abcdefghijklmnopqrstuvwxyz"

  /** `ALPHABET`: the digits, the upper-case letters, `_`, the lower-case letters, `-`. */
  const Alphabet := Digits + Upper + "_" + Lower + "-"

  /** The size used when the caller gives none. */
  const DefaultSize := 21

  /** The position of an alphabet character in `Alphabet`. */
  function Rank(c: char): int {
    if '0' <= c <= '9' then c as int - '0' as int
    else if 'A' <= c <= 'Z' then c as int - 'A' as int + 10
    else if c == '_' then 36
    else if 'a' <= c <= 'z' then c as int - 'a' as int + 37
    else 63
  }

  /** The digits take positions 0 to 9. */
  lemma DigitRanks()
    ensures forall i | 0 <= i < 10 :: Rank(Alphabet[i]) == i
  {
    assert forall i | 0 <= i < |Digits| :: Digits[i] as int == '0' as int + i;
    assert forall i | 0 <= i < 10 :: Alphabet[i] == Digits[i];
  }

  /** The upper-case letters take positions 10 to 35. */
  lemma UpperRanks()
    ensures forall i | 10 <= i < 36 :: Rank(Alphabet[i]) == i
  {
    assert forall i | 0 <= i < |Upper| :: Upper[i] as int == 'A' as int + i;
    assert forall i | 10 <= i < 36 :: Alphabet[i] == Upper[i - 10];
  }

  /** The lower-case letters take positions 37 to 62. */
  lemma LowerRanks()
    ensures forall i | 37 <= i < 63 :: Rank(Alphabet[i]) == i
  {
    assert forall i | 0 <= i < |Lower| :: Lower[i] as int == 'a' as int + i;
    assert forall i | 37 <= i < 63 :: Alphabet[i] == Lower[i - 37];
  }

  /** Each character of the alphabet sits at the position `Rank` gives it. */
  lemma AlphabetRanks()
    ensures |Alphabet| == 64
    ensures forall i | 0 <= i < 64 :: Rank(Alphabet[i]) == i
  {
    DigitRanks();
    UpperRanks();
    LowerRanks();
    assert Alphabet[36] == '_' && Alphabet[63] == '-';
  }

  /** The alphabet has 64 pairwise distinct characters. */
  lemma AlphabetDistinct()
    ensures |Alphabet| == 64
    ensures forall i, j | 0 <= i < j < 64 :: Alphabet[i] != Alphabet[j]
  {
    AlphabetRanks();
  }

  /** `Math.floor(r * ALPHABET.length)` for a draw `r` in [0, 1): always a valid index. */
  function DrawIndex(r: real): (k: nat)
    requires 0.0 <= r < 1.0
    ensures k < |Alphabet|
    ensures k as real <= r * 64.0 < k as real + 1.0
  {
    (r * 64.0).Floor
  }

  /** How many characters `nanoid(size)` produces: `size` when positive, otherwise none. */
  function Length(size: Option<int>): nat {
    var n := size.GetOr(DefaultSize);
    if n < 0 then 0 else n
  }

  /** `nanoid(size)`, with `draws[i]` the value `Math.random()` returns in round `i`. */
  method NewId(size: Option<int>, draws: seq<real>) returns (id: string)
    requires forall i | 0 <= i < |draws| :: 0.0 <= draws[i] < 1.0
    requires Length(size) <= |draws|
    ensures |id| == Length(size)
    ensures forall i | 0 <= i < |id| :: id[i] == Alphabet[DrawIndex(draws[i])]
    ensures forall i | 0 <= i < |id| :: id[i] in Alphabet
  {
    var n := size.GetOr(DefaultSize);
    id := "";
    var i := 0;
    while i < n
      invariant 0 <= i && (n <= 0 ==> i == 0) && (n > 0 ==> i <= n)
      invariant |id| == i
      invariant forall k | 0 <= k < i :: id[k] == Alphabet[DrawIndex(draws[k])]
    {
      id := id + [Alphabet[DrawIndex(draws[i])]];
      i := i + 1;
    }
  }
}
