/**
 The Internet checksum. The reference is sections 1 and 2 of RFC 1071: the complement of the
 one's-complement sum of the big-endian 16-bit words. The four implementations defer or fold
 carries in different ways; three of them are proved to compute it for every input, and the
 fourth for exactly the inputs on which its accumulator loses nothing.
 */
module Checksum {
  import opened Base

  const U32 := 0x1_0000_0000
  const U64 := 0x1_0000_0000_0000_0000
  const U128 := 0x1_0000_0000_0000_0000_0000_0000_0000_0000

  function Word(high: byte, low: byte): u16 {
    high * 0x100 + low
  }

  /** The plain sum of the 16-bit words; an odd last byte is the high half of its word. */
  function WordSum(data: seq<byte>): nat {
    if data == [] then 0
    else if |data| == 1 then Word(data[0], 0)
    else Word(data[0], data[1]) + WordSum(data[2..])
  }

  /** The one's-complement sum behind a plain sum: each carry, worth 2^16, is added back in as 1. */
  function OnesSum(n: nat): u16 {
    if n > 0xFFFF then OnesSum(n - 0x1_0000 + 1) else n
  }

  function Complement(x: u16): u16 {
    0xFFFF - x
  }

  /** The reference checksum. */
  function Reference(data: seq<byte>): u16 {
    Complement(OnesSum(WordSum(data)))
  }

  /** Data with its checksum in it is accepted: all its words add up to all ones. */
  predicate SumsUp(data: seq<byte>) {
    OnesSum(WordSum(data)) == 0xFFFF
  }

  lemma SumsUpIs(data: seq<byte>)
    ensures SumsUp(data) <==> Reference(data) == 0
  {
    hide OnesSum, WordSum;
  }

  /** The example of section 3 of RFC 1071: the words 0001, f203, f4f5 and f6f7 add up to ddf2. */
  lemma StandardExample()
    ensures var data := [0x00, 0x01, 0xf2, 0x03, 0xf4, 0xf5, 0xf6, 0xf7];
            WordSum(data) == 0x2ddf0 && OnesSum(WordSum(data)) == 0xddf2 && Reference(data) == 0x220d
  {
    var data := [0x00, 0x01, 0xf2, 0x03, 0xf4, 0xf5, 0xf6, 0xf7];
    assert WordSum(data[6..]) == 0xf6f7;
    assert WordSum(data[4..]) == 0xf4f5 + 0xf6f7;
    assert WordSum(data[2..]) == 0xf203 + 0xf4f5 + 0xf6f7;
    assert OnesSum(0x2ddf0) == OnesSum(0x1ddf1) == OnesSum(0xddf2) == 0xddf2;
  }

  // The one's-complement sum

  lemma {:induction false} OnesSumDropsCarries(n: nat, k: nat)
    requires n > 0
    ensures OnesSum(n + 0xFFFF * k) == OnesSum(n)
    decreases k
  {
    if k > 0 {
      OnesSumDropsCarries(n, k - 1);
    }
  }

  lemma {:induction false} OnesSumZero(n: nat)
    ensures OnesSum(n) == 0 <==> n == 0
  {
    if n > 0xFFFF {
      OnesSumZero(n - 0xFFFF);
    }
  }

  /** Carries may be added back in at any point of a longer sum. */
  lemma {:induction false} OnesSumAnyTime(x: nat, y: nat)
    ensures OnesSum(x + y) == OnesSum(OnesSum(x) + y)
    decreases x
  {
    if x > 0xFFFF {
      OnesSumAnyTime(x - 0xFFFF, y);
    }
  }

  lemma OnesSumSwap(x: nat, x': nat, y: nat)
    requires OnesSum(x) == OnesSum(x')
    ensures OnesSum(x + y) == OnesSum(x' + y)
  {
    OnesSumAnyTime(x, y);
    OnesSumAnyTime(x', y);
  }

  lemma {:induction false} WordSumConcat(a: seq<byte>, b: seq<byte>)
    requires |a| % 2 == 0
    ensures WordSum(a + b) == WordSum(a) + WordSum(b)
  {
    if a == [] {
      assert a + b == b;
    } else {
      assert (a + b)[2..] == a[2..] + b;
      WordSumConcat(a[2..], b);
    }
  }

  lemma {:induction false} WordSumBound(data: seq<byte>)
    ensures WordSum(data) <= (|data| + 1) / 2 * 0xFFFF
  {
    if |data| >= 2 {
      WordSumBound(data[2..]);
    }
  }

  // Folding

  /** The bits above the low sixteen are added to them. */
  function Fold(x: nat): nat {
    var high := x / 0x1_0000;
    x - high * 0x1_0000 + high
  }

  function FoldAndFlip(x: nat): u16 {
    if x > 0xFFFF then FoldAndFlip(Fold(x)) else Complement(x)
  }

  /** One fold keeps the one's-complement sum, and so keeps zero and non-zero apart. */
  lemma FoldKeepsOnesSum(x: nat)
    ensures OnesSum(Fold(x)) == OnesSum(x)
    ensures Fold(x) == 0 <==> x == 0
  {
    if x > 0 {
      assert x == Fold(x) + 0xFFFF * (x / 0x1_0000);
      OnesSumDropsCarries(Fold(x), x / 0x1_0000);
    }
  }

  lemma {:induction false} FoldsToOnesSum(x: nat)
    ensures FoldAndFlip(x) == Complement(OnesSum(x))
    decreases x
  {
    if x > 0xFFFF {
      FoldKeepsOnesSum(x);
      FoldsToOnesSum(Fold(x));
    }
  }

  /** How many times `FoldAndFlip` folds. */
  function FoldCount(x: nat): nat {
    if x > 0xFFFF then 1 + FoldCount(Fold(x)) else 0
  }

  lemma FoldShrinks(x: nat, bound: nat)
    requires bound > 0 && x <= 0x1_0000 * bound + 0xFFFE
    ensures Fold(x) <= bound + 0xFFFE
    ensures FoldCount(x) <= 1 + FoldCount(Fold(x))
  {
  }

  /** Eight folds are enough for any 128-bit sum. */
  lemma EightFoldsSuffice(x: nat)
    requires x < U128
    ensures FoldCount(x) <= 8
  {
    hide Fold, FoldCount;
    FoldShrinks(x, 0x1_0000_0000_0000_0000_0000_0000_0000);
    var x1 := Fold(x);
    FoldShrinks(x1, 0x1_0000_0000_0000_0000_0000_0000);
    var x2 := Fold(x1);
    FoldShrinks(x2, 0x1_0000_0000_0000_0000_0000);
    var x3 := Fold(x2);
    FoldShrinks(x3, 0x1_0000_0000_0000_0000);
    var x4 := Fold(x3);
    FoldShrinks(x4, 0x1_0000_0000_0000);
    var x5 := Fold(x4);
    FoldShrinks(x5, 0x1_0000_0000);
    TwoFoldsLeft(Fold(x5));
  }

  /** The largest sum left after six folds needs two more. */
  lemma TwoFoldsLeft(x: nat)
    requires x <= 0x1_0000_FFFE
    ensures Fold(Fold(x)) <= 0xFFFF && FoldCount(x) <= 2
  {
    FoldShrinks(x, 0x1_0000);
    FoldShrinks(Fold(x), 1);
  }

  // The production implementation

  function Zeros(n: nat): (z: seq<byte>)
    ensures |z| == n
  {
    seq(n, _ => 0)
  }

  function BigEndian(bytes: seq<byte>): nat {
    if bytes == [] then 0 else BigEndian(bytes[..|bytes| - 1]) * 0x100 + bytes[|bytes| - 1]
  }

  /** A chunk of at most eight bytes, padded with zeros at the end, as a 64-bit number. */
  function BigEndian64(chunk: seq<byte>): nat
    requires |chunk| <= 8
  {
    BigEndian(chunk + Zeros(8 - |chunk|))
  }

  /** Adds the 64-bit chunks of `groups` to a 128-bit accumulator that wraps around. */
  function SumChunks(acc: nat, groups: seq<byte>): nat
    decreases |groups|
  {
    if |groups| < 8 then acc else SumChunks((acc + BigEndian64(groups[..8])) % U128, groups[8..])
  }

  function Calculate(data: seq<byte>): u16 {
    var cut := |data| - |data| % 8;
    FoldAndFlip(SumChunks(BigEndian64(data[cut..]), data[..cut]))
  }

  lemma {:induction false} WordSumZeros(n: nat)
    ensures WordSum(Zeros(n)) == 0
  {
    if n >= 2 {
      assert Zeros(n)[2..] == Zeros(n - 2);
      WordSumZeros(n - 2);
    }
  }

  /** Padding at the end adds nothing, even after an odd byte. */
  lemma {:induction false} WordSumPadded(chunk: seq<byte>, n: nat)
    ensures WordSum(chunk + Zeros(n)) == WordSum(chunk)
    decreases |chunk|
  {
    if |chunk| >= 2 {
      assert (chunk + Zeros(n))[2..] == chunk[2..] + Zeros(n);
      WordSumPadded(chunk[2..], n);
    } else if |chunk| == 1 && n > 0 {
      assert (chunk + Zeros(n))[2..] == Zeros(n - 1);
      WordSumZeros(n - 1);
    } else {
      assert n == 0 ==> chunk + Zeros(n) == chunk;
      assert chunk == [] ==> chunk + Zeros(n) == Zeros(n);
      WordSumZeros(n);
    }
  }

  function Limit(n: nat): nat {
    if n == 0 then 1 else 0x100 * Limit(n - 1)
  }

  lemma {:induction false} BigEndianFits(bytes: seq<byte>)
    ensures BigEndian(bytes) < Limit(|bytes|)
  {
    if bytes != [] {
      BigEndianFits(bytes[..|bytes| - 1]);
    }
  }

  /** Moving a sum one lane up does not change its one's-complement sum. */
  lemma LaneUp(x: nat, word: u16)
    ensures OnesSum(x * 0x1_0000 + word) == OnesSum(x + word)
  {
    if x > 0 {
      OnesSumDropsCarries(x + word, x);
    }
  }

  /** Whatever its length, a big-endian number carries into positions congruent to the sum of its words. */
  lemma {:induction false} BigEndianIsWords(bytes: seq<byte>)
    requires |bytes| % 2 == 0
    ensures OnesSum(BigEndian(bytes)) == OnesSum(WordSum(bytes))
  {
    hide OnesSum, BigEndian, WordSum, Word;
    NoWords();
    if bytes != [] {
      var n := |bytes| - 2;
      var front, last := bytes[..n], Word(bytes[n], bytes[n + 1]);
      assert bytes == front + bytes[n..];
      LastWord(bytes);
      BigEndianIsWords(front);
      WordSumConcat(front, bytes[n..]);
      LaneUp(BigEndian(front), last);
      OnesSumSwap(BigEndian(front), WordSum(front), last);
    }
  }

  lemma LastWord(bytes: seq<byte>)
    requires |bytes| >= 2
    ensures var n := |bytes| - 2;
            && BigEndian(bytes) == BigEndian(bytes[..n]) * 0x1_0000 + Word(bytes[n], bytes[n + 1])
            && WordSum(bytes[n..]) == Word(bytes[n], bytes[n + 1])
  {
    var n := |bytes| - 2;
    assert bytes[n..][2..] == [] && bytes[..n + 1][..n] == bytes[..n];
  }

  lemma ChunkIsWords(chunk: seq<byte>)
    requires |chunk| <= 8
    ensures OnesSum(BigEndian64(chunk)) == OnesSum(WordSum(chunk))
    ensures BigEndian64(chunk) < U64
  {
    hide OnesSum, WordSum, BigEndian;
    var padded := chunk + Zeros(8 - |chunk|);
    BigEndianIsWords(padded);
    WordSumPadded(chunk, 8 - |chunk|);
    BigEndianFits(padded);
    assert Limit(8) == U64;
  }

  /** As long as the accumulator does not overflow, deferring all carries loses nothing. */
  lemma {:induction false} ChunksAreWords(acc: nat, groups: seq<byte>)
    requires |groups| % 8 == 0
    requires acc + |groups| / 8 * U64 < U128
    ensures OnesSum(SumChunks(acc, groups)) == OnesSum(acc + WordSum(groups))
    decreases |groups|
  {
    hide OnesSum, BigEndian64, Word, WordSum;
    if groups == [] {
      NoWords();
    } else {
      var chunk, rest := groups[..8], groups[8..];
      assert groups == chunk + rest;
      WordSumConcat(chunk, rest);
      ChunkIsWords(chunk);
      var next := acc + BigEndian64(chunk);
      assert |groups| / 8 == |rest| / 8 + 1;
      assert next + |rest| / 8 * U64 < U128;
      ChunksAreWords(next, rest);
      OnesSumSwap(BigEndian64(chunk), WordSum(chunk), acc + WordSum(rest));
    }
  }

  lemma NoWords()
    ensures WordSum([]) == 0 && BigEndian([]) == 0
  {
  }

  lemma WholeChunks(n: nat) returns (cut: nat)
    ensures cut == n - n % 8 && cut <= n && cut % 8 == 0 && cut % 2 == 0 && n - cut < 8
  {
    cut := n - n % 8;
    LanesAreWords(cut);
  }

  lemma {:induction false} LanesAreWords(n: nat)
    ensures n % 8 == 0 ==> n % 2 == 0
  {
    if n >= 8 {
      LanesAreWords(n - 8);
    }
  }

  lemma ChunksFit(acc: nat, groups: seq<byte>)
    requires |groups| < 0x8000_0000_0000_0000 && acc < U64
    ensures acc + |groups| / 8 * U64 < U128
  {
    assert |groups| / 8 < 0x1000_0000_0000_0000;
  }

  /** The production checksum is the reference checksum for every slice the language allows. */
  lemma CalculateIsReference(data: seq<byte>)
    requires |data| < 0x8000_0000_0000_0000
    ensures Calculate(data) == Reference(data)
  {
    hide OnesSum, BigEndian64, Word, WordSum, SumChunks, FoldAndFlip, Complement;
    var cut := WholeChunks(|data|);
    var groups, remainder := data[..cut], data[cut..];
    assert data == groups + remainder;
    WordSumConcat(groups, remainder);
    ChunkIsWords(remainder);
    ChunksFit(BigEndian64(remainder), groups);
    ChunksAreWords(BigEndian64(remainder), groups);
    OnesSumSwap(BigEndian64(remainder), WordSum(remainder), WordSum(groups));
    FoldsToOnesSum(SumChunks(BigEndian64(remainder), groups));
  }

  // The implementations that work on 16-bit words

  function Words(data: seq<byte>): seq<u16> {
    if |data| < 2 then [] else [Word(data[0], data[1])] + Words(data[2..])
  }

  /** A last byte without a partner, as the high half of a word. */
  function OddWord(data: seq<byte>): u16 {
    if |data| >= 2 then OddWord(data[2..]) else if |data| == 1 then Word(data[0], 0) else 0
  }

  function Total(words: seq<u16>): nat {
    if words == [] then 0 else words[0] + Total(words[1..])
  }

  lemma {:induction false} WordsTotal(data: seq<byte>)
    ensures WordSum(data) == OddWord(data) + Total(Words(data))
  {
    if |data| >= 2 {
      WordsTotal(data[2..]);
      assert Words(data)[1..] == Words(data[2..]);
    }
  }

  /** 16-bit addition with the carry added back in at once. */
  function EndAround(sum: u16, word: u16): u16 {
    if sum + word > 0xFFFF then sum + word - 0x1_0000 + 1 else sum + word
  }

  function SumFolded(sum: u16, words: seq<u16>): u16
    decreases |words|
  {
    if words == [] then sum else SumFolded(EndAround(sum, words[0]), words[1..])
  }

  function AlwaysFolded(data: seq<byte>): u16 {
    Complement(SumFolded(OddWord(data), Words(data)))
  }

  lemma {:induction false} SumFoldedIsOnesSum(sum: u16, words: seq<u16>)
    ensures SumFolded(sum, words) == OnesSum(sum + Total(words))
    decreases |words|
  {
    if words != [] {
      SumFoldedIsOnesSum(EndAround(sum, words[0]), words[1..]);
      OnesSumAnyTime(sum + words[0], Total(words[1..]));
    }
  }

  lemma AlwaysFoldedIsReference(data: seq<byte>)
    ensures AlwaysFolded(data) == Reference(data)
  {
    hide OnesSum, WordSum, OddWord, Words, SumFolded, Total;
    WordsTotal(data);
    SumFoldedIsOnesSum(OddWord(data), Words(data));
  }

  /** 32-bit addition that wraps around. */
  function Wrapping(sum: u32, word: u16): u32 {
    if sum + word < U32 then sum + word else sum + word - U32
  }

  /** Two folds of a 32-bit sum, cut down to 16 bits. */
  function FoldedTwice(sum: u32): u16 {
    Fold(Fold(sum)) % 0x1_0000
  }

  lemma FoldedTwiceIsOnesSum(sum: u32)
    ensures FoldedTwice(sum) == OnesSum(sum)
  {
    hide OnesSum, Fold;
    FoldKeepsOnesSum(sum);
    FoldKeepsOnesSum(Fold(sum));
    TwoFoldsLeft(sum);
    SmallSum(Fold(Fold(sum)));
  }

  lemma SmallSum(n: nat)
    requires n <= 0xFFFF
    ensures OnesSum(n) == n && n % 0x1_0000 == n
  {
  }

  /** The lowest 32-bit value that adding a 16-bit word could overflow. */
  const WOULD_OVERFLOW := 0xFFFF_FFFF - 0xFFFF + 1

  function SumChecked(sum: u32, words: seq<u16>): u32
    decreases |words|
  {
    if words == [] then sum
    else
      var next := Wrapping(sum, words[0]);
      SumChecked(if next < WOULD_OVERFLOW then next else Fold(next), words[1..])
  }

  function RangeChecked(data: seq<byte>): u16 {
    Complement(FoldedTwice(SumChecked(OddWord(data), Words(data))))
  }

  lemma {:induction false} SumCheckedKeepsOnesSum(sum: u32, words: seq<u16>)
    requires sum < WOULD_OVERFLOW
    ensures OnesSum(SumChecked(sum, words)) == OnesSum(sum + Total(words))
    decreases |words|
  {
    hide OnesSum;
    if words != [] {
      var next := sum + words[0];
      if next < WOULD_OVERFLOW {
        SumCheckedKeepsOnesSum(next, words[1..]);
      } else {
        SumCheckedKeepsOnesSum(Fold(next), words[1..]);
        FoldKeepsOnesSum(next);
        OnesSumSwap(Fold(next), next, Total(words[1..]));
      }
    }
  }

  lemma RangeCheckedIsReference(data: seq<byte>)
    ensures RangeChecked(data) == Reference(data)
  {
    hide OnesSum, WordSum, OddWord, Words, SumChecked, Total, FoldedTwice;
    WordsTotal(data);
    SumCheckedKeepsOnesSum(OddWord(data), Words(data));
    FoldedTwiceIsOnesSum(SumChecked(OddWord(data), Words(data)));
  }

  function SumWrapping(sum: u32, words: seq<u16>): u32
    decreases |words|
  {
    if words == [] then sum else SumWrapping(Wrapping(sum, words[0]), words[1..])
  }

  function NaiveWrapping(data: seq<byte>): u16 {
    Complement(FoldedTwice(SumWrapping(OddWord(data), Words(data))))
  }

  /** How often the accumulator wraps. */
  lemma {:induction false} SumWrappingLoses(sum: u32, words: seq<u16>) returns (wraps: nat)
    ensures sum + Total(words) == U32 * wraps + SumWrapping(sum, words)
    decreases |words|
  {
    if words == [] {
      wraps := 0;
    } else {
      wraps := SumWrappingLoses(Wrapping(sum, words[0]), words[1..]);
      if sum + words[0] >= U32 {
        wraps := wraps + 1;
      }
    }
  }

  lemma ShiftedOnesSum(q: nat, r: nat)
    requires r > 0
    ensures OnesSum(q + r) == OnesSum(r) <==> q % 0xFFFF == 0
  {
    var rest := q % 0xFFFF;
    assert q == rest + 0xFFFF * (q / 0xFFFF);
    OnesSumDropsCarries(rest + r, q / 0xFFFF);
    OnesSumAnyTime(r, rest);
    OnesSumZero(r);
    SmallShift(rest, OnesSum(r));
  }

  lemma SmallShift(rest: nat, s: nat)
    requires rest < 0xFFFF && 0 < s <= 0xFFFF
    ensures OnesSum(s + rest) == s <==> rest == 0
  {
  }

  /** What wrapping loses: each lost 2^32 is one unit of the one's-complement sum. */
  lemma WrapLoses(wraps: nat, left: nat)
    ensures OnesSum(left) == OnesSum(U32 * wraps + left) <==> wraps == 0 || (left > 0 && wraps % 0xFFFF == 0)
  {
    hide OnesSum;
    OnesSumZero(U32 * wraps + left);
    OnesSumZero(left);
    if left > 0 {
      OnesSumDropsCarries(wraps + left, 0x1_0001 * wraps);
      ShiftedOnesSum(wraps, left);
    }
  }

  /**
   Without an overflow check: if the word sum is `wraps` times 2^32 and `left` more, the checksum is
   right exactly when nothing was lost, or the lost carries cancel out and something is left.
   */
  lemma NaiveWrappingExact(data: seq<byte>, wraps: nat, left: u32)
    requires WordSum(data) == U32 * wraps + left
    ensures NaiveWrapping(data) == Reference(data) <==> wraps == 0 || (left > 0 && wraps % 0xFFFF == 0)
  {
    hide OnesSum, WordSum, OddWord, Words, SumWrapping, Total, FoldedTwice;
    WordsTotal(data);
    var lost := SumWrappingLoses(OddWord(data), Words(data));
    FoldedTwiceIsOnesSum(SumWrapping(OddWord(data), Words(data)));
    WrapLoses(wraps, left);
  }

  const DEFERRED_CARRIES_MAX_BYTES := 0xFFFF_FFFF / 0xFFFF * 2

  /** Up to the documented size nothing can be lost. */
  lemma NaiveWrappingUpTo(data: seq<byte>)
    requires |data| <= DEFERRED_CARRIES_MAX_BYTES
    ensures NaiveWrapping(data) == Reference(data)
  {
    hide NaiveWrapping, WordSum;
    WordSumBound(data);
    NaiveWrappingExact(data, 0, WordSum(data));
  }

  function Ones(n: nat): seq<byte> {
    seq(n, _ => 0xFF)
  }

  lemma {:induction false} WordSumOnes(n: nat)
    ensures WordSum(Ones(2 * n)) == 0xFFFF * n
  {
    if n > 0 {
      assert Ones(2 * n)[2..] == Ones(2 * (n - 1));
      WordSumOnes(n - 1);
    }
  }

  /** The documented size is the largest: two more bytes and the worst case comes out wrong. */
  lemma NaiveWrappingFailsPast()
    ensures var worst := Ones(DEFERRED_CARRIES_MAX_BYTES + 2);
            NaiveWrapping(worst) != Reference(worst)
  {
    hide NaiveWrapping, WordSum;
    WordSumOnes(DEFERRED_CARRIES_MAX_BYTES / 2 + 1);
    NaiveWrappingExact(Ones(DEFERRED_CARRIES_MAX_BYTES + 2), 1, 0xFFFE);
  }

  // Storing and checking a checksum

  function High(x: u16): byte { x / 0x100 }

  function Low(x: u16): byte { x % 0x100 }

  lemma WordSumPatched(before: seq<byte>, x: u16, after: seq<byte>)
    requires |before| % 2 == 0
    ensures WordSum(before + [High(x), Low(x)] + after) == WordSum(before + [0, 0] + after) + x
  {
    forall field: seq<byte> | |field| == 2
      ensures WordSum(before + field + after) == WordSum(before) + Word(field[0], field[1]) + WordSum(after)
    {
      assert field[2..] == [] && before + field + after == before + (field + after);
      WordSumConcat(before, field + after);
      WordSumConcat(field, after);
    }
  }

  /** Storing the checksum in a zeroed field at an even offset makes the whole checksum 0. */
  lemma StoredChecksumVerifies(before: seq<byte>, after: seq<byte>)
    requires |before| % 2 == 0
    ensures var c := Reference(before + [0, 0] + after);
            Reference(before + [High(c), Low(c)] + after) == 0
  {
    var w := WordSum(before + [0, 0] + after);
    WordSumPatched(before, Complement(OnesSum(w)), after);
    OnesSumAnyTime(w, Complement(OnesSum(w)));
  }

  /** All ones may stand for a computed checksum of 0: the datagram still verifies. */
  lemma StoredOnesVerify(before: seq<byte>, after: seq<byte>)
    requires |before| % 2 == 0 && Reference(before + [0, 0] + after) == 0
    ensures Reference(before + [0xFF, 0xFF] + after) == 0
  {
    var w := WordSum(before + [0, 0] + after);
    WordSumPatched(before, 0xFFFF, after);
    assert [High(0xFFFF), Low(0xFFFF)] == [0xFF, 0xFF];
    OnesSumDropsCarries(w, 1);
  }
}
