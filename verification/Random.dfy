/** The random number generator of Random.cpp: the MT19937 recurrence of section 26.5.3.2 of
    ISO/IEC 14882:2011, computed 624 words at a time in an array, and integers drawn from it. */
module Random {
  import opened Wrappers
  import opened MersenneBits

  const MERS_N: nat := 624
  const MERS_M: nat := 397

  // ---------- the recurrence ----------

  /** Term k of the sequence that starts with the 624 words of init. */
  ghost function X(init: seq<Word>, k: nat): Word
    requires |init| == MERS_N
  {
    if k < MERS_N then init[k] else Twist(X(init, k - MERS_N), X(init, k - MERS_N + 1), X(init, k - MERS_N + MERS_M))
  }

  lemma NextTerm(init: seq<Word>, k: nat)
    requires |init| == MERS_N && k >= MERS_N
    ensures X(init, k) == Twist(X(init, k - MERS_N), X(init, k - MERS_N + 1), X(init, k - MERS_N + MERS_M))
  {}

  /** Word i of the initial state, from the one before it. */
  function Scramble(previous: Word, i: nat): Word
    requires i < MERS_N
  {
    Plus(TimesF(Xor(previous, Shr30(previous))), i)
  }

  function Plus(x: Word, i: nat): Word
    requires i < MERS_N
  {
    x + (i as Word)
  }

  /** The initial words for a seed. */
  ghost function Initial(seed: Word, i: nat): Word
    requires i < MERS_N
  {
    if i == 0 then seed else Scramble(Initial(seed, i - 1), i)
  }

  ghost function InitialWords(seed: Word): (s: seq<Word>)
    ensures |s| == MERS_N && forall i | 0 <= i < MERS_N :: s[i] == Initial(seed, i)
  {
    seq(MERS_N, i requires 0 <= i < MERS_N => Initial(seed, i))
  }

  // ---------- MT19937 ----------

  /** The sequence of section 26.5.3.2 with w = 32, n = 624, m = 397 and r = 31, bit by bit. */
  lemma TermBits(init: seq<Word>, k: nat, i: Word)
    requires |init| == 624 && k >= 624 && i < 32
    ensures TwistAt(X(init, k - 624), X(init, k - 623), X(init, k - 227), X(init, k), i)
  {
    NextTerm(init, k);
    TwistBits(X(init, k - 624), X(init, k - 623), X(init, k - 227), i);
    hide Twist, X, TwistAt;
  }

  /** Word i of the initial state is f times q plus i, where q is the word before with its two highest bits added to
      the two lowest ones without carry. */
  lemma ScrambleBits(previous: Word, i: nat) returns (q: Word)
    requires i < 624
    ensures Scramble(previous, i) == Plus(TimesF(q), i) && AddedRight(previous, q, 30)
  {
    q := Xor(previous, Shr30(previous));
    Bits30(previous);
    hide AddedRight, Xor, Shr30, TimesF, Plus;
  }

  /** Known terms: the state for the seed 5489 begins with these words, and a state with these words at 0, 1 and 397
      has this first output. */
  lemma KnownTerms(init: seq<Word>)
    requires |init| == 624 && init[0] == 5489 && init[1] == 1301868182 && init[397] == 3183906156
    ensures Initial(5489, 0) == 5489 && Initial(5489, 1) == 1301868182 && Initial(5489, 2) == 2938499221
    ensures Temper(X(init, 624)) == 3499211612
  {
    NextTerm(init, 624);
    hide X;
  }

  // ---------- uniform integers ----------

  const TWO32: int := 0x1_0000_0000

  /** What IRandomX makes of a word: the high half of word * interval, if the low half is accepted. */
  function High(interval: int, w: int): int { w * interval / TWO32 }
  function Low(interval: int, w: int): int { w * interval % TWO32 }

  /** How many words each value gets. */
  function Share(interval: int): int
    requires interval > 0
  {
    TWO32 / interval
  }

  /** RLimit as the code computes it, with its wrap-around. */
  function Limit(interval: int): int
    requires interval > 0
  {
    (TWO32 / interval % TWO32 * interval - 1) % TWO32
  }

  predicate Accepted(interval: int, w: int)
    requires interval > 0
  {
    0 <= w < TWO32 && Low(interval, w) <= Limit(interval)
  }

  lemma MulMono(a: int, b: int, c: int)
    requires a <= b && c >= 0
    ensures a * c <= b * c
  {
    assert 0 <= (b - a) * c;
  }

  /** Quotient and remainder are the only numbers of their kind. */
  lemma Division(a: int, d: int, q: int, r: int)
    requires d > 0 && a == q * d + r && 0 <= r < d
    ensures a / d == q && a % d == r
  {
    var k, m := a / d, a % d;
    assert a == k * d + m;
    hide *;
    if k > q { MulMono(q + 1, k, d); }
    if k < q { MulMono(k + 1, q, d); }
  }

  lemma Quotient(a: int, d: int) returns (q: int, r: int)
    requires d > 0
    ensures q == a / d && r == a % d && a == q * d + r && 0 <= r < d
  {
    q, r := a / d, a % d;
  }

  /** The limit is one less than a multiple of the interval, even where that is 2^32. */
  lemma LimitIs(interval: int)
    requires 2 <= interval < TWO32
    ensures Limit(interval) == Share(interval) * interval - 1 && 1 <= Share(interval)
    ensures TWO32 - interval < Share(interval) * interval <= TWO32
  {
    var q, r := Quotient(TWO32, interval);
    if q < 1 { MulMono(q, 0, interval); }
    MulMono(1, q, interval);
    if q >= TWO32 { MulMono(TWO32, q, interval); }
    Division(q, TWO32, 0, q);
    Division(q * interval - 1, TWO32, 0, q * interval - 1);
  }

  /** The words that give v: an unbroken run that starts at the first word of v's part. */
  function First(interval: int, v: int): int
    requires interval > 0
  {
    (v * TWO32 + interval - 1) / interval
  }

  lemma FirstIs(interval: int, v: int)
    requires 2 <= interval < TWO32 && 0 <= v < interval
    ensures var f := First(interval, v); 0 <= f && v * TWO32 <= f * interval < v * TWO32 + interval
  {
    var f, r := Quotient(v * TWO32 + interval - 1, interval);
    if f < 0 { MulMono(f, -1, interval); }
  }

  /** Multiples of n from f on: those of the first q are in the part of length q * n after base. */
  lemma Multiples(n: int, base: int, f: int, q: int, w: int)
    requires n > 0 && base <= f * n < base + n
    ensures f <= w < f + q <==> base <= w * n < base + q * n
  {
    if w < f {
      MulMono(w + 1, f, n);
    } else if w < f + q {
      MulMono(f, w, n);
      MulMono(w + 1, f + q, n);
    } else {
      MulMono(f + q, w, n);
    }
  }

  /** A word is accepted with value v exactly when it is one of Share(interval) consecutive words. */
  lemma ValueIff(interval: int, v: int, w: int)
    requires 2 <= interval < TWO32 && 0 <= v < interval
    ensures Accepted(interval, w) && High(interval, w) == v <==>
              First(interval, v) <= w < First(interval, v) + Share(interval)
  {
    LimitIs(interval);
    FirstIs(interval, v);
    var p, part := w * interval, Share(interval) * interval;
    var h, l := Quotient(p, TWO32);
    assert High(interval, w) == h && Low(interval, w) == l;
    Multiples(interval, v * TWO32, First(interval, v), Share(interval), w);
    hide First, Share, High, Low;
    if v * TWO32 <= p < v * TWO32 + part {
      Division(p, TWO32, v, p - v * TWO32);
      if w < 0 { MulMono(w, -1, interval); }
      if w >= TWO32 { MulMono(TWO32, w, interval); }
    }
  }

  ghost function Range(lo: int, n: nat): (s: set<int>)
    ensures forall w :: w in s <==> lo <= w < lo + n
    ensures |s| == n
  {
    if n == 0 then {} else Range(lo, n - 1) + {lo + n - 1}
  }

  /** The accepted words that give v. */
  ghost function WordsFor(interval: int, v: int): set<int>
    requires interval > 0
  {
    set w | 0 <= w < TWO32 && Accepted(interval, w) && High(interval, w) == v
  }

  /** Exactly uniform: every value is given by the same number of accepted words. */
  lemma ExactlyUniform(interval: int, v: int)
    requires 2 <= interval < TWO32 && 0 <= v < interval
    ensures |WordsFor(interval, v)| == TWO32 / interval
  {
    LimitIs(interval);
    forall w ensures w in WordsFor(interval, v) <==> w in Range(First(interval, v), Share(interval)) {
      ValueIff(interval, v, w);
    }
    assert WordsFor(interval, v) == Range(First(interval, v), Share(interval));
  }

  /** The accepted words that give less than n. */
  ghost function WordsBelow(interval: int, n: int): set<int>
    requires interval > 0
  {
    set w | 0 <= w < TWO32 && Accepted(interval, w) && 0 <= High(interval, w) < n
  }

  lemma {:induction false} CountBelow(interval: int, n: nat)
    requires 2 <= interval < TWO32 && n <= interval
    ensures |WordsBelow(interval, n)| == n * (TWO32 / interval)
  {
    if n == 0 {
      assert WordsBelow(interval, 0) == {};
    } else {
      CountBelow(interval, n - 1);
      ExactlyUniform(interval, n - 1);
      var a, b, share := WordsBelow(interval, n - 1), WordsFor(interval, n - 1), TWO32 / interval;
      hide Accepted, High;
      assert WordsBelow(interval, n) == a + b && a !! b;
      assert |a + b| == |a| + |b| == (n - 1) * share + share == n * share;
    }
  }

  lemma HighRange(interval: int, w: int)
    requires 0 < interval && 0 <= w < TWO32
    ensures 0 <= High(interval, w) < interval
  {
    var h, l := Quotient(w * interval, TWO32);
    MulMono(0, w, interval);
    MulMono(w + 1, TWO32, interval);
  }

  /** More than half of all words are accepted, whatever the interval of positive ints. */
  lemma HalfAccepted(interval: int)
    requires 2 <= interval < 0x8000_0000
    ensures 2 * |set w | 0 <= w < TWO32 && Accepted(interval, w)| > TWO32
  {
    CountBelow(interval, interval);
    LimitIs(interval);
    var all := set w | 0 <= w < TWO32 && Accepted(interval, w);
    forall w | w in all ensures w in WordsBelow(interval, interval) { HighRange(interval, w); }
    assert all == WordsBelow(interval, interval);
  }

  // ---------- the generator ----------

  /** The number that output k of the sequence is. */
  ghost function Output(init: seq<Word>, k: nat): (w: int)
    requires |init| == MERS_N
    ensures 0 <= w < TWO32
  {
    Temper(X(init, k)) as int
  }

  class RandomMersenne {
    const mt: array<Word>
    var mti: int
    var lastInterval: int
    var rlimit: int
    ghost var init: seq<Word>
    ghost var pos: nat

    /** The array holds 624 consecutive terms, of which the next to be given out is term `pos`; the
        cached limit is that of the cached interval. */
    ghost predicate Valid()
      reads this, mt
    {
      && mt.Length == MERS_N && |init| == MERS_N && 0 <= mti <= MERS_N && mti <= pos
      && Holds(pos - mti, 0, MERS_N)
      && (lastInterval == 0 || (lastInterval >= 2 && rlimit == Limit(lastInterval)))
    }

    /** From index lo up to hi, the array holds the terms from first + lo on. */
    ghost predicate Holds(first: nat, lo: nat, hi: nat)
      requires mt.Length == MERS_N && |init| == MERS_N && hi <= MERS_N
      reads this, mt
    {
      forall i | lo <= i < hi :: mt[i] == X(init, first + i)
    }

    constructor (seed: Word)
      ensures Valid() && fresh(mt) && lastInterval == 0
      ensures init == InitialWords(seed) && pos == MERS_N + 37
    {
      mt := new Word[MERS_N];
      lastInterval := 0;
      new;
      RandomInit(seed);
    }

    /** Init0, but for the detection of the floating-point format. */
    method Init0(seed: Word)
      requires mt.Length == MERS_N && (lastInterval == 0 || (lastInterval >= 2 && rlimit == Limit(lastInterval)))
      modifies this, mt
      ensures Valid() && init == InitialWords(seed) && pos == MERS_N
      ensures lastInterval == old(lastInterval) && rlimit == old(rlimit)
    {
      hide Scramble, Limit, Twist;
      mt[0] := seed;
      mti := 1;
      while mti < MERS_N
        invariant 1 <= mti <= MERS_N
        invariant forall i | 0 <= i < mti :: mt[i] == Initial(seed, i)
        modifies `mti, mt
      {
        mt[mti] := Scramble(mt[mti - 1], mti);
        mti := mti + 1;
      }
      init := InitialWords(seed);
      pos := MERS_N;
    }

    /** The first 37 words are thrown away. */
    method RandomInit(seed: Word)
      requires mt.Length == MERS_N && (lastInterval == 0 || (lastInterval >= 2 && rlimit == Limit(lastInterval)))
      modifies this, mt
      ensures Valid() && init == InitialWords(seed) && pos == MERS_N + 37
      ensures lastInterval == old(lastInterval) && rlimit == old(rlimit)
    {
      Init0(seed);
      for i := 0 to 37
        invariant Valid() && init == InitialWords(seed) && pos == MERS_N + i
        invariant lastInterval == old(lastInterval) && rlimit == old(rlimit)
      {
        var _ := BRandom();
      }
    }

    /** The next 624 terms replace the current ones in place. The second loop reads words that the first
        has already replaced, and the last word needs the new first one. */
    method Refill()
      requires Valid() && mti == MERS_N
      modifies this`mti, mt
      ensures Valid() && mti == 0
    {
      hide Twist, X;
      ghost var first: nat := pos - MERS_N;
      var kk := 0;
      while kk < MERS_N - MERS_M
        invariant 0 <= kk <= MERS_N - MERS_M
        invariant Holds(pos, 0, kk) && Holds(first, kk, MERS_N)
        modifies mt
      {
        NextTerm(init, pos + kk);
        mt[kk] := Twist(mt[kk], mt[kk + 1], mt[kk + MERS_M]);
        kk := kk + 1;
      }
      while kk < MERS_N - 1
        invariant MERS_N - MERS_M <= kk <= MERS_N - 1
        invariant Holds(pos, 0, kk) && Holds(first, kk, MERS_N)
        modifies mt
      {
        NextTerm(init, pos + kk);
        mt[kk] := Twist(mt[kk], mt[kk + 1], mt[kk + MERS_M - MERS_N]);
        kk := kk + 1;
      }
      NextTerm(init, pos + kk);
      mt[MERS_N - 1] := Twist(mt[MERS_N - 1], mt[0], mt[MERS_M - 1]);
      mti := 0;
    }

    /** 32 random bits: the next term, tempered. */
    method BRandom() returns (y: Word)
      requires Valid()
      modifies this, mt
      ensures Valid() && pos == old(pos) + 1 && y == Temper(X(init, old(pos)))
      ensures init == old(init) && lastInterval == old(lastInterval) && rlimit == old(rlimit)
    {
      if mti >= MERS_N { Refill(); }
      y := mt[mti];
      assert y == X(init, pos - mti + mti);
      mti := mti + 1;
      pos := pos + 1;
      y := Temper(y);
    }

    /** A random integer in min..max, each with the same probability; nothing if `tries` words in a row
        are rejected, where Random.cpp goes on for as long as it takes. */
    method IRandomX(min: int, max: int, tries: nat) returns (r: Option<int>)
      requires Valid() && -0x8000_0000 <= min < 0x8000_0000 && -0x8000_0000 <= max < 0x8000_0000
      requires max - min + 1 < 0x8000_0000
      modifies this, mt
      ensures Valid() && init == old(init)
      ensures max <= min ==> pos == old(pos) && r == Some(if max == min then min else -0x8000_0000)
      ensures max > min ==>
                var n := max - min + 1; var used := pos - old(pos);
                && lastInterval == n && rlimit == Limit(n) && 0 <= used <= tries
                && Rejected(init, n, old(pos), if r.Some? then used - 1 else used)
                && (r.None? ==> used == tries)
                && (r.Some? ==>
                      used > 0 && Accepted(n, Output(init, pos - 1)) && r.value == min + High(n, Output(init, pos - 1)))
      ensures max > min && r.Some? ==> min <= r.value <= max
    {
      if max <= min { return Some(if max == min then min else -0x8000_0000); }
      var interval := max - min + 1;
      if interval != lastInterval {
        rlimit := (TWO32 / interval % TWO32 * interval - 1) % TWO32;
        lastInterval := interval;
      }
      hide Limit, Output, X, High, Low;
      var i := 0;
      while i < tries
        invariant Valid() && init == old(init) && pos == old(pos) + i && lastInterval == interval && 0 <= i <= tries
        invariant Rejected(init, interval, old(pos), i)
      {
        r := Draw(interval);
        i := i + 1;
        if r.Some? { return Some(r.value + min); }
      }
      return None;
    }

    /** One turn of the rejection loop. */
    method Draw(interval: int) returns (iran: Option<int>)
      requires Valid() && 2 <= interval < TWO32 && interval == lastInterval
      modifies this, mt
      ensures Valid() && init == old(init) && lastInterval == interval && pos == old(pos) + 1
      ensures var w := Output(init, old(pos));
              && iran == (if Accepted(interval, w) then Some(High(interval, w)) else None)
              && 0 <= High(interval, w) < interval
    {
      hide Limit, X, Temper;
      var bits := BRandom();
      assert bits as int == Output(init, old(pos));
      hide Output;
      HighRange(interval, bits as int);
      var longran := bits as int * interval;
      var remainder := longran % TWO32;
      return if remainder > rlimit then None else Some(longran / TWO32);
    }
  }

  /** The k outputs from pos on are rejected. */
  ghost predicate Rejected(init: seq<Word>, interval: int, pos: nat, k: int)
    requires |init| == MERS_N && interval > 0
  {
    forall j | pos <= j < pos + k :: !Accepted(interval, Output(init, j))
  }
}
