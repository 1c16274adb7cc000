/** qlearning.AI.Utils: the legacy decimal-accumulation board hash. */
module LegacyUtils {
  import opened JavaInt
  import opened Trial
  import Utils

  /** Math.pow(10, to) on reals: exact for every exponent, negative ones included. */
  function Pow10(to: int32): real
  {
    if to >= 0 then Pow(10, to as int) as real else 1.0 / Pow(10, -(to as int)) as real
  }

  /** Java's narrowing of a double to an `int`: round toward zero, then
      saturate at the ends of the range. */
  function ToInt(x: real): (r: int32)
    ensures -0x8000_0000 as real <= x < 0x8000_0000 as real && x == x.Floor as real ==> r as int == x.Floor
  {
    var t := if x >= 0.0 then x.Floor else -((-x).Floor);
    if t < -0x8000_0000 then -0x8000_0000
    else if t > 0x7FFF_FFFF then 0x7FFF_FFFF
    else t as int32
  }

  /** One turn of `hashcode += m.what() * Math.pow(10, m.to())`: a compound
      assignment, so the sum is taken as a double and narrowed back. */
  function Accumulate(hashcode: int32, m: Move): int32
  {
    ToInt(hashcode as real + m.what as real * Pow10(m.to))
  }

  /** The hash of a trial. The reverse iterator visits the newest move first,
      so the oldest move is the last one added. */
  function LegacyHash(trial: seq<Move>): int32
  {
    if trial == [] then 0 else Accumulate(LegacyHash(trial[1..]), trial[0])
  }

  /** boardToHashcode, the legacy version. */
  method BoardToHashcode(trial: seq<Move>) returns (hashcode: int32)
    ensures hashcode == LegacyHash(trial)
    ensures trial == [] ==> hashcode == 0
  {
    hashcode := 0;
    var i := |trial|;
    while i > 0
      invariant 0 <= i <= |trial|
      invariant hashcode == LegacyHash(trial[i..])
    {
      i := i - 1;
      assert trial[i..][1..] == trial[i + 1..];
      hashcode := Accumulate(hashcode, trial[i]);
    }
    assert trial[0..] == trial;
  }

  /** The exact term what * 10^to of a move to a site (a move with a
      negative destination never enters an exact sum; it counts 0 here). */
  function Term(m: Move): int
  {
    if m.to >= 0 then m.what as int * Pow(10, m.to as int) else 0
  }

  /** The exact sum of what * 10^to over the moves. */
  function Terms(trial: seq<Move>): int
  {
    if trial == [] then 0 else Term(trial[0]) + Terms(trial[1..])
  }

  /** Every term is an integer, every `Math.pow(10, to)` is a finite double
      (10^308 is the largest power of ten below the double range), and
      every partial sum the loop forms fits in an `int`. */
  predicate Exact(trial: seq<Move>)
  {
    && (forall i :: 0 <= i < |trial| ==> 0 <= trial[i].to < 309)
    && (forall k :: 0 <= k <= |trial| ==> -0x8000_0000 <= Terms(trial[k..]) < 0x8000_0000)
  }

  lemma ExactSuffix(trial: seq<Move>)
    requires trial != [] && Exact(trial)
    ensures Exact(trial[1..])
  {
    forall k | 0 <= k <= |trial[1..]|
      ensures trial[1..][k..] == trial[k + 1..]
    {
    }
  }

  /** One exact turn: the double sum is an integer in range, so nothing is lost. */
  lemma AccumulateExact(h: int32, m: Move)
    requires m.to >= 0
    requires -0x8000_0000 <= h as int + m.what as int * Pow(10, m.to as int) < 0x8000_0000
    ensures Accumulate(h, m) as int == h as int + m.what as int * Pow(10, m.to as int)
  {
    var p := Pow(10, m.to as int);
    RealProduct(m.what as int, p);
    AccumulateOf(h, m, h as int + m.what as int * p);
  }

  /** A turn whose double sum is the integer `t` of the `int` range adds
      exactly `t`. */
  lemma AccumulateOf(h: int32, m: Move, t: int)
    requires h as real + m.what as real * Pow10(m.to) == t as real
    requires -0x8000_0000 <= t < 0x8000_0000
    ensures Accumulate(h, m) as int == t
  {
  }

  /** The product of two integers, taken as a real. */
  lemma RealProduct(a: int, b: int)
    ensures (a * b) as real == a as real * b as real
  {
  }

  /** Without saturation or fractions, the hash is the plain sum of the terms. */
  lemma {:induction false} LegacyHashExact(trial: seq<Move>)
    requires Exact(trial)
    ensures LegacyHash(trial) as int == Terms(trial)
  {
    if trial != [] {
      ExactSuffix(trial);
      LegacyHashExact(trial[1..]);
      assert trial[0..] == trial;
      AccumulateExact(LegacyHash(trial[1..]), trial[0]);
    }
  }

  /** An empty move history hashes to 0. */
  lemma EmptyTrial()
    ensures LegacyHash([]) == 0
  {
  }

  /** A move that places id 0 adds nothing, wherever it is in the trial. */
  lemma {:induction false} ZeroWhatIgnored(before: seq<Move>, m: Move, after: seq<Move>)
    requires m.what == 0
    ensures LegacyHash(before + [m] + after) == LegacyHash(before + after)
  {
    if before == [] {
      assert before + [m] + after == [m] + after;
      assert ([m] + after)[1..] == after;
      assert before + after == after;
      var h := LegacyHash(after);
      assert h as real + m.what as real * Pow10(m.to) == h as real;
    } else {
      assert (before + [m] + after)[1..] == before[1..] + [m] + after;
      assert (before + after)[1..] == before[1..] + after;
      ZeroWhatIgnored(before[1..], m, after);
    }
  }

  lemma {:induction false} TermsAppend(a: seq<Move>, b: seq<Move>)
    ensures Terms(a + b) == Terms(a) + Terms(b)
  {
    if a == [] {
      assert a + b == b;
    } else {
      assert (a + b)[1..] == a[1..] + b;
      TermsAppend(a[1..], b);
    }
  }

  /** Taking one move out of a trial takes it out of the multiset. */
  lemma RemoveOneMultiset(b: seq<Move>, k: nat)
    requires k < |b|
    ensures multiset(b[..k] + b[k + 1..]) == multiset(b) - multiset{b[k]}
  {
    assert b == b[..k] + [b[k]] + b[k + 1..];
  }

  /** Taking one move out of a trial takes its term out of the sum. */
  lemma RemoveOne(b: seq<Move>, k: nat)
    requires k < |b|
    ensures Terms(b) == Term(b[k]) + Terms(b[..k] + b[k + 1..])
  {
    var pre, rest := b[..k], b[k + 1..];
    var tail := [b[k]] + rest;
    assert b == pre + tail;
    TermsAppend(pre, tail);
    assert tail[1..] == rest;
    TermsAppend(pre, rest);
  }

  /** The sum of the terms depends only on the multiset of moves. */
  lemma {:induction false} TermsPermutation(a: seq<Move>, b: seq<Move>)
    requires multiset(a) == multiset(b)
    ensures Terms(a) == Terms(b)
    decreases |a|
  {
    if a != [] {
      assert a[0] in multiset(b);
      var k :| 0 <= k < |b| && b[k] == a[0];
      var rest := b[..k] + b[k + 1..];
      RemoveOne(b, k);
      RemoveOneMultiset(b, k);
      assert a == [a[0]] + a[1..];
      assert multiset(a[1..]) == multiset(rest);
      TermsPermutation(a[1..], rest);
    }
  }

  /** Under the exactness condition the visiting order does not matter. */
  lemma OrderIndependent(a: seq<Move>, b: seq<Move>)
    requires multiset(a) == multiset(b)
    requires Exact(a) && Exact(b)
    ensures LegacyHash(a) == LegacyHash(b)
  {
    LegacyHashExact(a);
    LegacyHashExact(b);
    TermsPermutation(a, b);
  }

  /** Digits d[0], d[1], ... read as a decimal number, least significant first. */
  function Horner(d: seq<int>): int
  {
    if d == [] then 0 else d[0] + 10 * Horner(d[1..])
  }

  predicate Digits(d: seq<int>)
  {
    forall i :: 0 <= i < |d| ==> 0 <= d[i] < 10
  }

  lemma {:induction false} HornerBounds(d: seq<int>)
    requires Digits(d)
    ensures 0 <= Horner(d) < Pow(10, |d|)
  {
    if d != [] {
      HornerBounds(d[1..]);
    }
  }

  lemma {:induction false} HornerZeros(d: seq<int>)
    requires forall i :: 0 <= i < |d| ==> d[i] == 0
    ensures Horner(d) == 0
  {
    if d != [] {
      HornerZeros(d[1..]);
    }
  }

  lemma {:induction false} HornerAdd(d: seq<int>, t: nat, w: int)
    requires t < |d|
    ensures Horner(d[t := d[t] + w]) == Horner(d) + w * Pow(10, t)
  {
    if t > 0 {
      assert d[t := d[t] + w][1..] == d[1..][t - 1 := d[1..][t - 1] + w];
      HornerAdd(d[1..], t - 1, w);
      assert 10 * (w * Pow(10, t - 1)) == w * Pow(10, t);
    }
  }

  /** Dropping the lowest digit: (a + 10 h) / (10 p) == h / p. */
  lemma DropLowDigit(a: int, h: int, p: int)
    requires 0 <= a < 10 && h >= 0 && p > 0
    ensures (a + 10 * h) / (10 * p) == h / p
  {
    var q, r := h / p, h % p;
    assert h == p * q + r;
    assert a + 10 * h == (10 * p) * q + (10 * r + a);
    DivisionUnique(a + 10 * h, 10 * p, q, 10 * r + a);
  }

  /** Digit s of a decimal number can be read back with / 10^s and % 10. */
  lemma {:induction false} HornerDigit(d: seq<int>, s: nat)
    requires Digits(d) && s < |d|
    ensures (Horner(d) / Pow(10, s)) % 10 == d[s]
  {
    HornerBounds(d[1..]);
    if s == 0 {
      DivisionUnique(Horner(d), 10, Horner(d[1..]), d[0]);
    } else {
      DropLowDigit(d[0], Horner(d[1..]), Pow(10, s - 1));
      HornerDigit(d[1..], s - 1);
    }
  }

  /** A tic-tac-toe sized trial: every move goes to a site 0..8 with an id 0..9,
      and no site is reached twice. */
  predicate NineSiteTrial(trial: seq<Move>)
  {
    && (forall i :: 0 <= i < |trial| ==> 0 <= trial[i].to < 9 && 0 <= trial[i].what < 10)
    && (forall i, j :: 0 <= i < j < |trial| ==> trial[i].to != trial[j].to)
  }

  /** The id on each of the nine sites, as a digit sequence. */
  function SiteDigits(trial: seq<Move>): seq<int>
  {
    seq(9, s requires 0 <= s < 9 => Utils.Occupant(trial, s) as int)
  }

  lemma {:induction false} TermsAreDigits(trial: seq<Move>)
    requires NineSiteTrial(trial)
    ensures Digits(SiteDigits(trial))
    ensures Terms(trial) == Horner(SiteDigits(trial))
  {
    if trial == [] {
      HornerZeros(SiteDigits(trial));
    } else {
      var m, rest := trial[0], trial[1..];
      TermsAreDigits(rest);
      Utils.OccupantUntouched(rest, m.to as int);
      assert SiteDigits(trial) == SiteDigits(rest)[m.to as int := SiteDigits(rest)[m.to as int] + m.what as int];
      HornerAdd(SiteDigits(rest), m.to as int, m.what as int);
      forall s | 0 <= s < 9
        ensures 0 <= Utils.Occupant(trial, s) < 10
      {
        if s != m.to as int {
          assert Utils.Occupant(trial, s) == Utils.Occupant(rest, s);
          assert SiteDigits(rest)[s] == Utils.Occupant(rest, s) as int;
        }
      }
    }
  }

  lemma NineSiteTrialExact(trial: seq<Move>)
    requires NineSiteTrial(trial)
    ensures Exact(trial)
  {
    forall k | 0 <= k <= |trial|
      ensures 0 <= Terms(trial[k..]) < 0x8000_0000
    {
      assert NineSiteTrial(trial[k..]);
      TermsAreDigits(trial[k..]);
      HornerBounds(SiteDigits(trial[k..]));
      assert Pow(10, 9) == 1_000_000_000;
    }
  }

  /** On such a trial, decimal digit s of the hash is the id on site s. */
  lemma DigitIsOccupant(trial: seq<Move>, s: nat)
    requires NineSiteTrial(trial) && s < 9
    ensures (LegacyHash(trial) as int / Pow(10, s)) % 10 == Utils.Occupant(trial, s) as int
  {
    NineSiteTrialExact(trial);
    LegacyHashExact(trial);
    TermsAreDigits(trial);
    HornerDigit(SiteDigits(trial), s);
  }
}
