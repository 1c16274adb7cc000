/** qlearning.util.Utils: the occupancy hash of a board and the digit counter. */
module Utils {
  import opened JavaInt
  import opened JavaErrors
  import opened Trial

  /** The multiplier that fills the second half of the board vector. */
  const Salt: int := 331319

  /** The id on site s after the trial: the `what` of the EARLIEST move whose
      destination is s, or 0. The trial is replayed newest to oldest, so the
      oldest write to a site is the one that stays. */
  function Occupant(trial: seq<Move>, s: int): int32
  {
    if trial == [] then 0
    else if trial[0].to as int == s then trial[0].what
    else Occupant(trial[1..], s)
  }

  /** A move the replay can write: a pass, or a destination inside the
      2 * numSites vector. */
  predicate InVector(m: Move, numSites: nat)
  {
    m.to == -1 || 0 <= m.to as int < 2 * numSites
  }

  predicate AllInVector(trial: seq<Move>, numSites: nat)
  {
    forall i :: 0 <= i < |trial| ==> InVector(trial[i], numSites)
  }

  /** The vector that is hashed: occupancy in the first half, the salted
      occupancy (with 32-bit wrap-around) in the second. */
  function Board(trial: seq<Move>, numSites: nat): (b: seq<int32>)
  {
    seq(2 * numSites, s requires 0 <= s < 2 * numSites =>
      if s < numSites then Occupant(trial, s) else Wrap(Salt * Occupant(trial, s - numSites) as int))
  }

  /** `Arrays.deepHashCode` of an `Integer[]` (Java SE API): start at 1 and fold
      h := 31 * h + element over the elements in order, in 32-bit arithmetic. */
  function DeepHashCode(a: seq<int32>): int32
  {
    if a == [] then 1 else Wrap(31 * DeepHashCode(a[..|a| - 1]) as int + a[|a| - 1] as int)
  }

  /** What `boardToHashcode` returns for a trial on a board of numSites sites:
      an index exception if some move's destination falls outside the vector. */
  function HashOf(trial: seq<Move>, numSites: nat): Result<int32>
  {
    if AllInVector(trial, numSites) then Ok(DeepHashCode(Board(trial, numSites)))
    else Err(IndexOutOfBounds)
  }

  /** boardToHashcode: fill the occupancy vector by replaying the trial newest
      to oldest, salt the second half, and hash the whole vector. */
  method BoardToHashcode(trial: seq<Move>, numSites: nat) returns (r: Result<int32>)
    ensures r == HashOf(trial, numSites)
  {
    var board := new int32[2 * numSites](_ => 0);
    var ok := Replay(board, trial, numSites);
    if !ok {
      return Err(IndexOutOfBounds);
    }
    SaltSecondHalf(board, trial, numSites);
    r := Ok(DeepHashCode(board[..]));
  }

  /** The first loop of boardToHashcode: write each move's `what` to its
      destination, newest move first; it stops with an index exception at
      the first destination outside the vector. */
  method Replay(board: array<int32>, trial: seq<Move>, numSites: nat) returns (ok: bool)
    requires board.Length == 2 * numSites
    requires forall s :: 0 <= s < board.Length ==> board[s] == 0
    modifies board
    ensures ok == AllInVector(trial, numSites)
    ensures ok ==> forall s :: 0 <= s < board.Length ==> board[s] == Occupant(trial, s)
  {
    var i := |trial|;
    while i > 0
      invariant 0 <= i <= |trial|
      invariant AllInVector(trial[i..], numSites)
      invariant forall s :: 0 <= s < board.Length ==> board[s] == Occupant(trial[i..], s)
    {
      i := i - 1;
      var m := trial[i];
      assert trial[i..][1..] == trial[i + 1..];
      if m.to != -1 {
        if !(0 <= m.to as int < board.Length) {
          assert !InVector(trial[i], numSites);
          return false;
        }
        board[m.to] := m.what;
      }
    }
    assert trial[0..] == trial;
    ok := true;
  }

  /** The second loop of boardToHashcode: slot s + numSites gets the salted
      occupant of site s; the result is the hashed vector. */
  method SaltSecondHalf(board: array<int32>, trial: seq<Move>, numSites: nat)
    requires board.Length == 2 * numSites
    requires forall s :: 0 <= s < numSites ==> board[s] == Occupant(trial, s)
    modifies board
    ensures board[..] == Board(trial, numSites)
  {
    for k := 0 to numSites
      invariant forall s :: 0 <= s < numSites ==> board[s] == Occupant(trial, s)
      invariant forall s :: 0 <= s < k ==> board[s + numSites] == Wrap(Salt * Occupant(trial, s) as int)
    {
      board[k + numSites] := Wrap(Salt * board[k] as int);
    }
    ghost var b := Board(trial, numSites);
    forall s | 0 <= s < 2 * numSites
      ensures board[..][s] == b[s]
    {
      if s >= numSites {
        assert board[(s - numSites) + numSites] == Wrap(Salt * Occupant(trial, s - numSites) as int);
      }
    }
  }

  /** The second half of the hashed vector is the first half times the salt,
      in 32-bit arithmetic. */
  lemma BoardSalted(trial: seq<Move>, numSites: nat, s: nat)
    requires s < numSites
    ensures Board(trial, numSites)[s + numSites] == Wrap(Salt * Board(trial, numSites)[s] as int)
  {
  }

  /** A site nobody moved to stays empty (0). */
  lemma {:induction false} OccupantUntouched(trial: seq<Move>, s: int)
    requires forall i :: 0 <= i < |trial| ==> trial[i].to as int != s
    ensures Occupant(trial, s) == 0
  {
    if trial != [] {
      OccupantUntouched(trial[1..], s);
    }
  }

  /** A site holds the `what` of the earliest move to it. */
  lemma {:induction false} OccupantEarliest(trial: seq<Move>, s: int, j: nat)
    requires j < |trial| && trial[j].to as int == s
    requires forall i :: 0 <= i < j ==> trial[i].to as int != s
    ensures Occupant(trial, s) == trial[j].what
  {
    if j > 0 {
      OccupantEarliest(trial[1..], s, j - 1);
    }
  }

  /** A pass, wherever it is in the trial, changes no site. */
  lemma {:induction false} OccupantSkipsPass(before: seq<Move>, pass: Move, after: seq<Move>, s: int)
    requires IsPass(pass) && s >= 0
    ensures Occupant(before + [pass] + after, s) == Occupant(before + after, s)
  {
    if before != [] {
      assert (before + [pass] + after)[1..] == before[1..] + [pass] + after;
      assert (before + after)[1..] == before[1..] + after;
      OccupantSkipsPass(before[1..], pass, after, s);
    } else {
      assert (before + [pass] + after)[1..] == after;
      assert before + after == after;
    }
  }

  /** Inserting a pass into a trial leaves its hash unchanged. */
  lemma PassIgnored(before: seq<Move>, pass: Move, after: seq<Move>, numSites: nat)
    requires IsPass(pass)
    ensures HashOf(before + [pass] + after, numSites) == HashOf(before + after, numSites)
  {
    var t1, t2 := before + [pass] + after, before + after;
    forall s | 0 <= s < numSites
      ensures Occupant(t1, s) == Occupant(t2, s)
    {
      OccupantSkipsPass(before, pass, after, s);
    }
    assert Board(t1, numSites) == Board(t2, numSites);
    if AllInVector(t2, numSites) {
      forall i | 0 <= i < |t1|
        ensures InVector(t1[i], numSites)
      {
        if i < |before| {
          assert t1[i] == t2[i];
        } else if i > |before| {
          assert t1[i] == t2[i - 1];
        }
      }
    }
    if AllInVector(t1, numSites) {
      forall i | 0 <= i < |t2|
        ensures InVector(t2[i], numSites)
      {
        if i < |before| {
          assert t2[i] == t1[i];
        } else {
          assert t2[i] == t1[i + 1];
        }
      }
    }
  }

  /** No site of the first half is the destination of two moves. */
  predicate SitesTargetedOnce(trial: seq<Move>, numSites: nat)
  {
    forall i, j :: 0 <= i < j < |trial| && 0 <= trial[i].to as int < numSites ==> trial[i].to != trial[j].to
  }

  lemma OccupantUnique(trial: seq<Move>, numSites: nat, j: nat)
    requires SitesTargetedOnce(trial, numSites)
    requires j < |trial| && 0 <= trial[j].to as int < numSites
    ensures Occupant(trial, trial[j].to as int) == trial[j].what
  {
    OccupantEarliest(trial, trial[j].to as int, j);
  }

  /** Two permutations of one set of moves, each reaching every first-half site
      at most once, agree on every first-half site. */
  lemma OccupantPermutation(a: seq<Move>, b: seq<Move>, numSites: nat, s: int)
    requires multiset(a) == multiset(b)
    requires SitesTargetedOnce(a, numSites) && SitesTargetedOnce(b, numSites)
    requires 0 <= s < numSites
    ensures Occupant(a, s) == Occupant(b, s)
  {
    if j :| 0 <= j < |a| && a[j].to as int == s {
      assert a[j] in multiset(b);
      var k :| 0 <= k < |b| && b[k] == a[j];
      OccupantUnique(a, numSites, j);
      OccupantUnique(b, numSites, k);
    } else {
      forall k | 0 <= k < |b|
        ensures b[k].to as int != s
      {
        assert b[k] in multiset(a);
      }
      OccupantUntouched(a, s);
      OccupantUntouched(b, s);
    }
  }

  /** The occupancy hash does not depend on the order of the moves, as long
      as no first-half site is reached twice. */
  lemma HashPermutation(a: seq<Move>, b: seq<Move>, numSites: nat)
    requires multiset(a) == multiset(b)
    requires SitesTargetedOnce(a, numSites) && SitesTargetedOnce(b, numSites)
    ensures HashOf(a, numSites) == HashOf(b, numSites)
  {
    forall s | 0 <= s < numSites
      ensures Occupant(a, s) == Occupant(b, s)
    {
      OccupantPermutation(a, b, numSites, s);
    }
    assert Board(a, numSites) == Board(b, numSites);
    forall i | 0 <= i < |a|
      ensures a[i] in b
    {
      assert a[i] in multiset(b);
    }
    forall i | 0 <= i < |b|
      ensures b[i] in a
    {
      assert b[i] in multiset(a);
    }
    assert AllInVector(a, numSites) <==> AllInVector(b, numSites);
  }

  /** The hash of an all-zero vector of length k is 31^k in 32-bit arithmetic. */
  lemma {:induction false} DeepHashCodeZeros(a: seq<int32>)
    requires forall i :: 0 <= i < |a| ==> a[i] == 0
    ensures DeepHashCode(a) == Wrap(Pow(31, |a|))
  {
    if a != [] {
      DeepHashCodeZeros(a[..|a| - 1]);
      WrapMulAdd(31, Pow(31, |a| - 1), 0);
    }
  }

  /** An empty trial hashes to a value fixed by the board size alone. */
  lemma EmptyTrialHash(numSites: nat)
    ensures HashOf([], numSites) == Ok(Wrap(Pow(31, 2 * numSites)))
  {
    var b := Board([], numSites);
    forall s | 0 <= s < |b|
      ensures b[s] == 0
    {
      if s >= numSites {
        assert Wrap(Salt * 0) == 0;
      }
    }
    DeepHashCodeZeros(b);
  }

  /** widthOfNumber, as a recursive definition: one more than the width of
      num / 10 while num has two digits or more. */
  function Width(num: int): nat
    decreases if num < 0 then 0 else num
  {
    if num >= 10 then 1 + Width(num / 10) else 0
  }

  /** The width is the number of decimal digits minus one. */
  lemma {:induction false} WidthBounds(num: int)
    requires num >= 1
    ensures Pow(10, Width(num)) <= num < Pow(10, Width(num) + 1)
  {
    if num >= 10 {
      var d := num / 10;
      WidthBounds(d);
      PowStep(Width(d), d, num);
    }
  }

  /** A number between ten times a power of ten and ten times the next one
      lies between the next two powers. */
  lemma PowStep(w: nat, d: int, num: int)
    requires Pow(10, w) <= d < Pow(10, w + 1)
    requires 10 * d <= num < 10 * d + 10
    ensures Pow(10, w + 1) <= num < Pow(10, w + 2)
  {
    assert Pow(10, w + 1) == 10 * Pow(10, w);
    assert Pow(10, w + 2) == 10 * Pow(10, w + 1);
  }

  /** Java's num / 10 is positive exactly when num has two digits or more,
      and is then Dafny's num / 10. */
  lemma DivTen(num: int)
    ensures Div(num, 10) > 0 <==> num >= 10
    ensures num >= 10 ==> Div(num, 10) == num / 10
  {
    if num >= 0 {
      DivRemNatural(num, 10);
    }
  }

  /** widthOfNumber: count how often num can be divided by 10 and stay positive. */
  method WidthOfNumber(num: int32) returns (width: int)
    ensures width == Width(num as int)
    ensures num < 10 ==> width == 0
    ensures num >= 1 ==> Pow(10, width) <= num as int < Pow(10, width + 1)
  {
    width := 0;
    var temp := num as int;
    DivTen(temp);
    while Div(temp, 10) > 0
      invariant 0 <= width
      invariant width + Width(temp) == Width(num as int)
      invariant Div(temp, 10) > 0 <==> temp >= 10
      decreases if temp < 0 then 0 else temp
    {
      DivTen(temp);
      width := width + 1;
      temp := Div(temp, 10);
      DivTen(temp);
    }
    if num >= 1 {
      WidthBounds(num as int);
    }
  }
}
