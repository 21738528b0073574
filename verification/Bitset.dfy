/** The bitset of linearized operations: a slice of 64-bit words, with bit `i` of the set in word
    i / 64. Words are integers below 2^64 and the machine's bitwise operators are defined bit by bit.
    Each operation is proved against the set of positions that the words stand for. */
module Bitset {

  const WORD := 64

  type Word = w: int | 0 <= w < 0x1_0000_0000_0000_0000

  // ---------- bitwise operators ----------

  function Pow2(i: nat): (p: nat)
    ensures p >= 1
  {
    if i == 0 then 1 else 2 * Pow2(i - 1)
  }

  predicate Bit(w: nat, i: nat) {
    if i == 0 then w % 2 == 1 else Bit(w / 2, i - 1)
  }

  function BitOf(on: bool): nat {
    if on then 1 else 0
  }

  function Or(a: nat, b: nat): nat
    decreases a + b
  {
    if a + b == 0 then 0 else 2 * Or(a / 2, b / 2) + BitOf(a % 2 == 1 || b % 2 == 1)
  }

  function AndNot(a: nat, b: nat): nat
    decreases a + b
  {
    if a + b == 0 then 0 else 2 * AndNot(a / 2, b / 2) + BitOf(a % 2 == 1 && b % 2 != 1)
  }

  function Xor(a: nat, b: nat): nat
    decreases a + b
  {
    if a + b == 0 then 0 else 2 * Xor(a / 2, b / 2) + BitOf((a % 2 == 1) != (b % 2 == 1))
  }

  lemma ShiftedIn(w: nat, on: bool, i: nat)
    ensures Bit(2 * w + BitOf(on), i) == if i == 0 then on else Bit(w, i - 1)
  {
    assert (2 * w + BitOf(on)) / 2 == w;
  }

  lemma {:induction false} OrBits(a: nat, b: nat, i: nat)
    ensures Bit(Or(a, b), i) <==> Bit(a, i) || Bit(b, i)
    decreases i
  {
    if a + b == 0 {
      NoBits(i);
    } else {
      ShiftedIn(Or(a / 2, b / 2), a % 2 == 1 || b % 2 == 1, i);
      if i > 0 { OrBits(a / 2, b / 2, i - 1); }
    }
  }

  lemma {:induction false} AndNotBits(a: nat, b: nat, i: nat)
    ensures Bit(AndNot(a, b), i) <==> Bit(a, i) && !Bit(b, i)
    decreases i
  {
    if a + b == 0 {
      NoBits(i);
    } else {
      ShiftedIn(AndNot(a / 2, b / 2), a % 2 == 1 && b % 2 != 1, i);
      if i > 0 { AndNotBits(a / 2, b / 2, i - 1); }
    }
  }

  lemma {:induction false} XorBits(a: nat, b: nat, i: nat)
    ensures Bit(Xor(a, b), i) <==> Bit(a, i) != Bit(b, i)
    decreases i
  {
    if a + b == 0 {
      NoBits(i);
    } else {
      ShiftedIn(Xor(a / 2, b / 2), (a % 2 == 1) != (b % 2 == 1), i);
      if i > 0 { XorBits(a / 2, b / 2, i - 1); }
    }
  }

  lemma {:induction false} OperatorsStayInWidth(a: nat, b: nat, width: nat)
    requires a < Pow2(width) && b < Pow2(width)
    ensures Or(a, b) < Pow2(width) && AndNot(a, b) < Pow2(width) && Xor(a, b) < Pow2(width)
  {
    if width > 0 { OperatorsStayInWidth(a / 2, b / 2, width - 1); }
  }

  /** 1 << i has exactly bit `i` on, and fits a word when `i` is below its width. */
  lemma {:induction false} ShiftedOne(i: nat, j: nat)
    ensures Bit(Pow2(i), j) <==> i == j
    decreases i
  {
    if i > 0 && j > 0 {
      ShiftedOne(i - 1, j - 1);
    } else if i == 0 && j > 0 {
      NoBits(j - 1);
    }
  }

  lemma {:induction false} NoBits(j: nat)
    ensures !Bit(0, j)
  {
    if j > 0 { NoBits(j - 1); }
  }

  lemma {:induction false} Pow2Monotone(i: nat, j: nat)
    requires i < j
    ensures Pow2(i) < Pow2(j)
  {
    if i < j - 1 { Pow2Monotone(i, j - 1); }
  }

  lemma {:induction false} Pow2Sum(i: nat, j: nat)
    ensures Pow2(i + j) == Pow2(i) * Pow2(j)
  {
    if j > 0 { Pow2Sum(i, j - 1); }
  }

  lemma WordWidth()
    ensures Pow2(WORD) == 0x1_0000_0000_0000_0000
  {
    assert Pow2(4) == 0x10;
    assert Pow2(8) == 0x100 by { Pow2Sum(4, 4); }
    assert Pow2(16) == 0x1_0000 by { Pow2Sum(8, 8); }
    assert Pow2(32) == 0x1_0000_0000 by { Pow2Sum(16, 16); }
    assert Pow2(64) == 0x1_0000_0000_0000_0000 by { Pow2Sum(32, 32); }
  }

  /** Two numbers of the same width are equal as soon as all their bits are. */
  lemma {:induction false} WordExtensional(a: nat, b: nat, width: nat)
    requires a < Pow2(width) && b < Pow2(width)
    requires forall k: nat :: k < width ==> Bit(a, k) == Bit(b, k)
    ensures a == b
  {
    if width > 0 {
      forall k: nat | k < width - 1 ensures Bit(a / 2, k) == Bit(b / 2, k) {
        assert Bit(a, k + 1) == Bit(b, k + 1);
      }
      WordExtensional(a / 2, b / 2, width - 1);
      assert Bit(a, 0) == Bit(b, 0);
    }
  }

  /** The word with bit `minor` turned on: w |= 1 << minor. */
  function OrShiftedOne(w: Word, minor: nat): (r: Word)
    requires minor < WORD
    ensures forall j: nat :: Bit(r, j) <==> Bit(w, j) || j == minor
  {
    WordWidth();
    Pow2Monotone(minor, WORD);
    OperatorsStayInWidth(w, Pow2(minor), WORD);
    assert forall j: nat :: Bit(Or(w, Pow2(minor)), j) <==> Bit(w, j) || j == minor by {
      forall j: nat ensures Bit(Or(w, Pow2(minor)), j) <==> Bit(w, j) || j == minor {
        OrBits(w, Pow2(minor), j);
        ShiftedOne(minor, j);
      }
    }
    Or(w, Pow2(minor))
  }

  /** The word with bit `minor` turned off: w &^= 1 << minor. */
  function AndNotShiftedOne(w: Word, minor: nat): (r: Word)
    requires minor < WORD
    ensures forall j: nat :: Bit(r, j) <==> Bit(w, j) && j != minor
  {
    WordWidth();
    Pow2Monotone(minor, WORD);
    OperatorsStayInWidth(w, Pow2(minor), WORD);
    assert forall j: nat :: Bit(AndNot(w, Pow2(minor)), j) <==> Bit(w, j) && j != minor by {
      forall j: nat ensures Bit(AndNot(w, Pow2(minor)), j) <==> Bit(w, j) && j != minor {
        AndNotBits(w, Pow2(minor), j);
        ShiftedOne(minor, j);
      }
    }
    AndNot(w, Pow2(minor))
  }

  function XorWord(a: Word, b: Word): (r: Word)
    ensures forall j: nat :: Bit(r, j) <==> Bit(a, j) != Bit(b, j)
  {
    WordWidth();
    OperatorsStayInWidth(a, b, WORD);
    assert forall j: nat :: Bit(Xor(a, b), j) <==> Bit(a, j) != Bit(b, j) by {
      forall j: nat ensures Bit(Xor(a, b), j) <==> Bit(a, j) != Bit(b, j) {
        XorBits(a, b, j);
      }
    }
    Xor(a, b)
  }

  // ---------- the set the words stand for ----------

  /** How many words hold positions below `size`. */
  function Chunks(size: nat): nat {
    size / WORD + if size % WORD != 0 then 1 else 0
  }

  predicate Member(words: seq<Word>, pos: nat) {
    pos < WORD * |words| && Bit(words[pos / WORD], pos % WORD)
  }

  ghost function Contents(words: seq<Word>): (s: set<nat>)
    ensures forall pos: nat :: pos in s <==> Member(words, pos)
  {
    set pos: nat | pos < WORD * |words| && Member(words, pos)
  }

  // ---------- the slice ----------

  method NewBitset(bits: nat) returns (b: array<Word>)
    ensures fresh(b) && b.Length == Chunks(bits)
    ensures Contents(b[..]) == {}
  {
    var extra := 0;
    if bits % WORD != 0 {
      extra := 1;
    }
    b := new Word[bits / WORD + extra](_ => 0);
    forall pos: nat ensures !Member(b[..], pos) {
      NoBits(pos % WORD);
    }
  }

  method Clone(b: array<Word>) returns (c: array<Word>)
    ensures fresh(c) && c[..] == b[..]
  {
    c := new Word[b.Length](i requires 0 <= i < b.Length reads b => b[i]);
  }

  lemma SetInWords(words: seq<Word>, pos: nat)
    requires pos < WORD * |words|
    ensures Contents(words[pos / WORD := OrShiftedOne(words[pos / WORD], pos % WORD)]) == Contents(words) + {pos}
  {
    var words' := words[pos / WORD := OrShiftedOne(words[pos / WORD], pos % WORD)];
    forall p: nat ensures Member(words', p) <==> Member(words, p) || p == pos {
    }
  }

  lemma ClearInWords(words: seq<Word>, pos: nat)
    requires pos < WORD * |words|
    ensures Contents(words[pos / WORD := AndNotShiftedOne(words[pos / WORD], pos % WORD)]) == Contents(words) - {pos}
  {
    var words' := words[pos / WORD := AndNotShiftedOne(words[pos / WORD], pos % WORD)];
    forall p: nat ensures Member(words', p) <==> Member(words, p) && p != pos {
    }
  }

  method Set(b: array<Word>, pos: nat)
    requires pos < WORD * b.Length
    modifies b
    ensures Contents(b[..]) == old(Contents(b[..])) + {pos}
  {
    SetInWords(b[..], pos);
    ghost var was := b[..];
    var major, minor := pos / WORD, pos % WORD;
    b[major] := OrShiftedOne(b[major], minor);
    assert b[..] == was[major := OrShiftedOne(was[major], minor)];
  }

  method Clear(b: array<Word>, pos: nat)
    requires pos < WORD * b.Length
    modifies b
    ensures Contents(b[..]) == old(Contents(b[..])) - {pos}
  {
    ClearInWords(b[..], pos);
    ghost var was := b[..];
    var major, minor := pos / WORD, pos % WORD;
    b[major] := AndNotShiftedOne(b[major], minor);
    assert b[..] == was[major := AndNotShiftedOne(was[major], minor)];
  }

  method Get(b: array<Word>, pos: nat) returns (on: bool)
    requires pos < WORD * b.Length
    ensures on <==> pos in Contents(b[..])
  {
    on := Bit(b[pos / WORD], pos % WORD);
    assert on == Member(b[..], pos);
  }

  /** Number of bits on in `w` among the first `i`. */
  function OnesCount(w: Word, i: nat): nat {
    if i == 0 then 0 else OnesCount(w, i - 1) + if Bit(w, i - 1) then 1 else 0
  }

  function PopcntOf(words: seq<Word>): nat {
    if words == [] then 0 else PopcntOf(words[..|words| - 1]) + OnesCount(words[|words| - 1], WORD)
  }

  function XorOf(words: seq<Word>, start: Word): Word {
    if words == [] then start else XorWord(XorOf(words[..|words| - 1], start), words[|words| - 1])
  }

  function HashOf(words: seq<Word>): Word {
    XorOf(words, PopcntOf(words) % 0x1_0000_0000_0000_0000)
  }

  method Popcnt(b: seq<Word>) returns (total: nat)
    ensures total == |Contents(b)|
    ensures total == PopcntOf(b)
  {
    total := 0;
    for i := 0 to |b|
      invariant total == PopcntOf(b[..i])
    {
      total := total + OnesCount(b[i], WORD);
      assert b[..i + 1][..i] == b[..i];
    }
    assert b[..|b|] == b;
    PopcntIsCardinality(b);
  }

  method Hash(b: seq<Word>) returns (hash: Word)
    ensures hash == HashOf(b)
  {
    var count := Popcnt(b);
    hash := count % 0x1_0000_0000_0000_0000;
    for i := 0 to |b|
      invariant hash == XorOf(b[..i], PopcntOf(b) % 0x1_0000_0000_0000_0000)
    {
      hash := XorWord(hash, b[i]);
      assert b[..i + 1][..i] == b[..i];
    }
    assert b[..|b|] == b;
  }

  method Equals(b: seq<Word>, b2: seq<Word>) returns (same: bool)
    ensures same <==> b == b2
    ensures |b| == |b2| ==> (same <==> Contents(b) == Contents(b2))
  {
    if |b| == |b2| {
      SameSetSameWords(b, b2);
    }
    if |b| != |b2| {
      return false;
    }
    for i := 0 to |b|
      invariant b[..i] == b2[..i]
    {
      if b[i] != b2[i] {
        return false;
      }
    }
    assert b == b[..|b|];
    return true;
  }

  /** Equal sets over equally many words are the same words, so they hash alike. */
  lemma SameSetSameWords(a: seq<Word>, b: seq<Word>)
    requires |a| == |b|
    ensures Contents(a) == Contents(b) <==> a == b
    ensures Contents(a) == Contents(b) ==> HashOf(a) == HashOf(b)
  {
    if Contents(a) == Contents(b) {
      forall i | 0 <= i < |a| ensures a[i] == b[i] {
        forall k: nat | k < WORD ensures Bit(a[i], k) == Bit(b[i], k) {
          var pos := WORD * i + k;
          assert pos / WORD == i && pos % WORD == k;
          assert pos in Contents(a) <==> pos in Contents(b);
        }
        WordWidth();
        WordExtensional(a[i], b[i], WORD);
      }
    }
  }

  /** The bits on among the first `i` of word `w`, as positions from `base`. */
  ghost function WordContents(w: Word, base: nat, i: nat): (s: set<nat>)
    ensures forall p: nat :: p in s <==> base <= p < base + i && Bit(w, p - base)
    ensures |s| == OnesCount(w, i)
  {
    if i == 0 then {}
    else WordContents(w, base, i - 1) + if Bit(w, i - 1) then {base + i - 1} else {}
  }

  lemma {:induction false} PopcntIsCardinality(words: seq<Word>)
    ensures PopcntOf(words) == |Contents(words)|
  {
    if words == [] {
      assert Contents(words) == {};
    } else {
      var n := |words| - 1;
      var front, w := words[..n], words[n];
      PopcntIsCardinality(front);
      var last := WordContents(w, WORD * n, WORD);
      forall p: nat ensures p in Contents(words) <==> p in Contents(front) || p in last {
        if WORD * n <= p < WORD * n + WORD {
          assert p / WORD == n && p % WORD == p - WORD * n;
        }
        if p < WORD * n {
          assert p / WORD < n;
        }
      }
      assert Contents(words) == Contents(front) + last;
      assert Contents(front) !! last;
    }
  }
}
