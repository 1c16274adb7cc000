/** qlearning.AI.LesserQLearningAI: a one-step Q-learning agent whose state
    is the list of legal moves itself. It keeps the legal moves and the move
    index of its last turn and updates that one slot on the next call to
    updateQ. */
module LesserQLearning {
  import opened JavaErrors
  import opened Trial
  import QLearning

  /** The Q table: legal-move list to the values of those moves. */
  type Table = map<seq<Move>, seq<real>>

  /** Every row has one value per move of its key, as getQValues creates it. */
  predicate RowsFit(t: Table)
  {
    forall k :: k in t ==> |t[k]| == |k|
  }

  /** What getQValues leaves: the table afterwards and the row it returns. */
  datatype Lookup = Lookup(table: Table, row: seq<real>)

  /** getQValues on a table that exists: the stored row, or else a new
      all-zero row with one entry per move, inserted. */
  function Fetch(t: Table, moves: seq<Move>): (r: Lookup)
    ensures moves in r.table && r.table[moves] == r.row
    ensures r.table.Keys == t.Keys + {moves}
    ensures forall k :: k in t ==> r.table[k] == t[k]
    ensures moves in t ==> r.row == t[moves]
    ensures moves !in t ==> r.row == QLearning.Zeros(|moves|)
    ensures RowsFit(t) ==> RowsFit(r.table)
  {
    if moves in t then Lookup(t, t[moves])
    else Lookup(t[moves := QLearning.Zeros(|moves|)], QLearning.Zeros(|moves|))
  }

  /** The value of the greedy scan: it starts at 0.0 and is replaced by any
      strictly greater entry, so it is the maximum when that is positive. */
  function ScanMax(row: seq<real>): (m: real)
    ensures 0.0 <= m
    ensures forall i :: 0 <= i < |row| ==> row[i] <= m
    ensures m == 0.0 || exists i :: 0 <= i < |row| && row[i] == m
  {
    if row == [] then 0.0
    else
      var m := ScanMax(row[..|row| - 1]);
      if m < row[|row| - 1] then row[|row| - 1] else m
  }

  /** The index of the greedy scan: it starts at 0 and moves to the first
      entry above every earlier one and above 0.0. */
  function ScanIndex(row: seq<real>): (i: int)
    ensures row == [] ==> i == 0
    ensures row != [] ==> 0 <= i < |row|
    ensures ScanMax(row) > 0.0 ==>
      row[i] == ScanMax(row) && forall j :: 0 <= j < i ==> row[j] < row[i]
  {
    if row == [] then 0
    else
      var prefix := row[..|row| - 1];
      if ScanMax(prefix) < row[|row| - 1] then |row| - 1 else ScanIndex(prefix)
  }

  /** The "best" value of updateQ: it starts at 0.0 and is lowered by any
      smaller entry, so it is min(0, min row). */
  function Bootstrap(row: seq<real>): (b: real)
    ensures b <= 0.0
    ensures forall i :: 0 <= i < |row| ==> b <= row[i]
    ensures b == 0.0 || exists i :: 0 <= i < |row| && row[i] == b
  {
    if row == [] then 0.0
    else
      var b := Bootstrap(row[..|row| - 1]);
      if row[|row| - 1] < b then row[|row| - 1] else b
  }

  /** updateQ's scan of the current round's values: the best value starts
      at 0.0 and each smaller entry replaces it. */
  method BestQValue(row: seq<real>) returns (best: real)
    ensures best == Bootstrap(row)
  {
    best := 0.0;
    for i := 0 to |row|
      invariant best == Bootstrap(row[..i])
    {
      assert row[..i + 1][..i] == row[..i];
      if row[i] < best {
        best := row[i];
      }
    }
    assert row[..|row|] == row;
  }

  /** The value updateQ stores. */
  function Revised(prior: real, reward: real, best: real, alpha: real, gamma: real): real
  {
    prior + alpha * (reward + gamma * best - prior)
  }

  /** What selectAction decides after copying the moves and drawing the
      random index: the table it leaves, the index it keeps as its last move,
      and whether it threw. */
  datatype Decision = Decision(table: Option<Table>, lastMove: int, outcome: Outcome)

  /** The greedy branch fires when the coin is at least 1 - epsilon; it keeps
      the random index unless the row has a strictly positive maximum. */
  function Decide(q: Option<Table>, moves: seq<Move>, random: int, coin: real, epsilon: real): (d: Decision)
  {
    if coin < 1.0 - epsilon then Decision(q, random, Pass)
    else if q.None? then Decision(q, random, Fail(NullPointer))
    else
      var l := Fetch(q.value, moves);
      Decision(Some(l.table), if ScanMax(l.row) > 0.0 then ScanIndex(l.row) else random, Pass)
  }

  /** Below the greedy threshold the random index is kept and the table is
      left alone. */
  lemma DecideExplores(q: Option<Table>, moves: seq<Move>, random: int, coin: real, epsilon: real)
    requires coin < 1.0 - epsilon
    ensures Decide(q, moves, random, coin, epsilon) == Decision(q, random, Pass)
  {
  }

  /** In the greedy branch a strictly positive maximum is played at its
      lowest index; otherwise the random index stays. */
  lemma DecideExploits(q: Table, moves: seq<Move>, random: int, coin: real, epsilon: real)
    requires coin >= 1.0 - epsilon
    ensures var d := Decide(Some(q), moves, random, coin, epsilon);
      var row := Fetch(q, moves).row;
      && d.table == Some(Fetch(q, moves).table) && d.outcome == Pass
      && (ScanMax(row) > 0.0 ==>
            && 0 <= d.lastMove < |row|
            && (forall j :: 0 <= j < |row| ==> row[j] <= row[d.lastMove])
            && (forall j :: 0 <= j < d.lastMove ==> row[j] < row[d.lastMove])
            && row[d.lastMove] > 0.0)
      && ((forall j :: 0 <= j < |row| ==> row[j] <= 0.0) ==> d.lastMove == random)
  {
    var row := Fetch(q, moves).row;
    if forall j :: 0 <= j < |row| ==> row[j] <= 0.0 {
      assert ScanMax(row) == 0.0;
    }
  }

  /** A move list never seen before is answered with the random index. */
  lemma DecideFreshList(q: Table, moves: seq<Move>, random: int, coin: real, epsilon: real)
    requires moves !in q
    ensures Decide(Some(q), moves, random, coin, epsilon).lastMove == random
  {
    if coin >= 1.0 - epsilon {
      DecideExploits(q, moves, random, coin, epsilon);
    }
  }

  /** When every row fits its key, the kept index is a legal index. */
  lemma DecideInRange(q: Option<Table>, moves: seq<Move>, random: int, coin: real, epsilon: real)
    requires 0 <= random < |moves|
    requires q.Some? ==> RowsFit(q.value)
    ensures var d := Decide(q, moves, random, coin, epsilon);
      0 <= d.lastMove < |moves| && (d.table.Some? ==> RowsFit(d.table.value))
  {
  }

  /** What updateQ leaves: the table and whether it threw. */
  datatype Update = Update(table: Option<Table>, outcome: Outcome)

  /** The table after the current row is fetched, and the bootstrap row:
      nothing is fetched (and the row is empty) when the current list is. */
  function Observe(q: Table, current: seq<Move>): (l: Lookup)
    ensures current == [] ==> l == Lookup(q, [])
    ensures current != [] ==> l == Fetch(q, current)
  {
    if current == [] then Lookup(q, []) else Fetch(q, current)
  }

  /** updateQ once the last turn's moves exist: take the best value of the
      current moves' row when there are current moves, fetch the last turn's
      row, and revise the slot of the last move when it is inside that row. */
  function Learn(q: Option<Table>, last: seq<Move>, current: seq<Move>, lastMove: int,
                 reward: real, alpha: real, gamma: real): (u: Update)
  {
    if q.None? then Update(q, Fail(NullPointer))
    else
      var o := Observe(q.value, current);
      var l := Fetch(o.table, last);
      if 0 <= lastMove < |l.row| then
        var v := Revised(l.row[lastMove], reward, Bootstrap(o.row), alpha, gamma);
        Update(Some(l.table[last := l.row[lastMove := v]]), Pass)
      else Update(Some(l.table), Pass)
  }

  /** t has the keys of q plus added, equal rows on q's keys, and all-zero
      rows of one entry per move on the others. */
  predicate Extends(q: Table, t: Table, added: set<seq<Move>>)
  {
    && t.Keys == q.Keys + added
    && (forall k :: k in q ==> t[k] == q[k])
    && (forall k :: k in t && k !in q ==> t[k] == QLearning.Zeros(|k|))
  }

  lemma ExtendsFetch(q: Table, moves: seq<Move>)
    ensures Extends(q, Fetch(q, moves).table, {moves})
  {
  }

  lemma ExtendsObserve(q: Table, current: seq<Move>)
    ensures Extends(q, Observe(q, current).table, if current == [] then {} else {current})
  {
  }

  lemma ExtendsTrans(q: Table, t: Table, u: Table, a: set<seq<Move>>, b: set<seq<Move>>)
    requires Extends(q, t, a) && Extends(t, u, b)
    ensures Extends(q, u, a + b)
  {
  }

  /** The table updateQ leaves: both rows fetched, then at most one slot of
      the last turn's row written. */
  lemma LearnTable(q: Table, last: seq<Move>, current: seq<Move>, lastMove: int,
                   reward: real, alpha: real, gamma: real)
    ensures var u := Learn(Some(q), last, current, lastMove, reward, alpha, gamma);
      && u.outcome == Pass && u.table.Some?
      && Extends(q, Fetch(Observe(q, current).table, last).table,
                 (if current == [] then {} else {current}) + {last})
      && var l := Fetch(Observe(q, current).table, last);
         u.table.value == if 0 <= lastMove < |l.row| then l.table[last := u.table.value[last]] else l.table
  {
    var o := Observe(q, current);
    ExtendsObserve(q, current);
    ExtendsFetch(o.table, last);
    ExtendsTrans(q, o.table, Fetch(o.table, last).table, if current == [] then {} else {current}, {last});
  }

  /** updateQ adds at most the two move lists as keys and keeps the rows'
      fit to their keys. */
  lemma LearnKeys(q: Table, last: seq<Move>, current: seq<Move>, lastMove: int,
                  reward: real, alpha: real, gamma: real)
    ensures var u := Learn(Some(q), last, current, lastMove, reward, alpha, gamma);
      && u.outcome == Pass && u.table.Some?
      && u.table.value.Keys == q.Keys + {last} + (if current == [] then {} else {current})
      && (RowsFit(q) ==> RowsFit(u.table.value))
  {
    LearnTable(q, last, current, lastMove, reward, alpha, gamma);
  }

  /** u keeps the keys of q and their rows' lengths, changes no slot of q
      other than slot i of row key, and is zero in the rows q lacks except
      at that slot. */
  predicate OneSlot(q: Table, u: Table, key: seq<Move>, i: int)
  {
    && (forall k :: k in q ==> k in u && |u[k]| == |q[k]|)
    && (forall k, c :: k in q && 0 <= c < |q[k]| && (k != key || c != i) ==> u[k][c] == q[k][c])
    && (forall k, c :: k in u && k !in q && 0 <= c < |u[k]| && (k != key || c != i) ==> u[k][c] == 0.0)
  }

  /** Writing slot i of row key of an extension of q, or nothing, changes
      only that slot. */
  lemma SlotWrite(q: Table, t: Table, added: set<seq<Move>>, key: seq<Move>, i: int, row: seq<real>)
    requires Extends(q, t, added) && key in t
    requires |row| == |t[key]| && forall c :: 0 <= c < |row| && c != i ==> row[c] == t[key][c]
    ensures OneSlot(q, t, key, i)
    ensures OneSlot(q, t[key := row], key, i)
  {
    var u := t[key := row];
    forall k | k in q
      ensures k in u && |u[k]| == |q[k]|
    {
      assert t[k] == q[k];
    }
    forall k, c | k in q && 0 <= c < |q[k]| && (k != key || c != i)
      ensures u[k][c] == q[k][c]
    {
      assert t[k] == q[k];
    }
    forall k, c | k in u && k !in q && 0 <= c < |u[k]| && (k != key || c != i)
      ensures u[k][c] == 0.0
    {
      assert t[k] == QLearning.Zeros(|k|);
    }
  }

  /** updateQ keeps every row's length and changes at most the last move's
      slot of the last turn's row; rows it adds are zero elsewhere. */
  lemma LearnWritesOneSlot(q: Table, last: seq<Move>, current: seq<Move>, lastMove: int,
                           reward: real, alpha: real, gamma: real)
    ensures var u := Learn(Some(q), last, current, lastMove, reward, alpha, gamma);
      u.table.Some? && OneSlot(q, u.table.value, last, lastMove)
  {
    LearnTable(q, last, current, lastMove, reward, alpha, gamma);
    var l := Fetch(Observe(q, current).table, last);
    var u := Learn(Some(q), last, current, lastMove, reward, alpha, gamma).table.value;
    SlotWrite(q, l.table, (if current == [] then {} else {current}) + {last}, last, lastMove, u[last]);
  }

  /** The slot updateQ writes gets the one-step update of its old value
      (0.0 for a new row) with the bootstrap min(0, min of the current row). */
  lemma LearnValue(q: Table, last: seq<Move>, current: seq<Move>, lastMove: int,
                   reward: real, alpha: real, gamma: real)
    ensures var u := Learn(Some(q), last, current, lastMove, reward, alpha, gamma);
      var row := if last in q then q[last] else QLearning.Zeros(|last|);
      var best := if current == [] then 0.0 else Bootstrap(if current in q then q[current] else QLearning.Zeros(|current|));
      && u.table.Some? && last in u.table.value
      && (0 <= lastMove < |row| ==> u.table.value[last][lastMove] == Revised(row[lastMove], reward, best, alpha, gamma))
  {
    var o := Observe(q, current);
    ExtendsObserve(q, current);
    assert Fetch(o.table, last).row == if last in q then q[last] else QLearning.Zeros(|last|);
  }

  /** The bootstrap value never rewards the next position: it is at most 0,
      and 0 when the current row is new. */
  lemma BootstrapNeverPositive(q: Table, current: seq<Move>)
    ensures current !in q ==> Bootstrap(Fetch(q, current).row) == 0.0
    ensures Bootstrap(Fetch(q, current).row) <= 0.0
  {
    var row := Fetch(q, current).row;
    if current !in q {
      assert forall i :: 0 <= i < |row| ==> row[i] == 0.0;
    }
  }

  /** With learning rate 0 updateQ changes no value. */
  lemma LearnZeroRate(q: Table, last: seq<Move>, current: seq<Move>, lastMove: int, reward: real, gamma: real)
    ensures var u := Learn(Some(q), last, current, lastMove, reward, 0.0, gamma);
      forall k :: k in q ==> k in u.table.value && u.table.value[k] == q[k]
  {
    LearnWritesOneSlot(q, last, current, lastMove, reward, 0.0, gamma);
    LearnValue(q, last, current, lastMove, reward, 0.0, gamma);
    var u := Learn(Some(q), last, current, lastMove, reward, 0.0, gamma);
    forall k | k in q
      ensures u.table.value[k] == q[k]
    {
      assert |u.table.value[k]| == |q[k]|;
    }
  }

  class LesserQLearningAI {
    var player: int
    const alpha: real
    const gamma: real
    const epsilon: real
    var q: Option<Table>
    var legalMovesLastTurn: Option<seq<Move>>
    var lastMoveMade: int

    /** LesserQLearningAI(alpha, gamma, epsilon): no table and no last turn yet. */
    constructor (alpha: real, gamma: real, epsilon: real)
      ensures this.alpha == alpha && this.gamma == gamma && this.epsilon == epsilon
      ensures player == -1 && q == None && legalMovesLastTurn == None && lastMoveMade == -1
    {
      this.alpha, this.gamma, this.epsilon := alpha, gamma, epsilon;
      player, q, legalMovesLastTurn, lastMoveMade := -1, None, None, -1;
    }

    /** Every row of the table has one value per move of its key. */
    predicate Valid()
      reads this`q
    {
      q.Some? ==> RowsFit(q.value)
    }

    /** initAI: a new empty table on every call. */
    method InitAI(playerID: int)
      modifies this`player, this`q
      ensures player == playerID && q == Some(map[]) && Valid()
    {
      player := playerID;
      q := Some(map[]);
    }

    /** getQValues: the move list's row, created as zeros on first sight. */
    method GetQValues(legalMoves: seq<Move>) returns (r: Result<seq<real>>)
      modifies this`q
      ensures old(q).None? ==> r == Err(NullPointer) && q == old(q)
      ensures old(q).Some? ==>
        var l := Fetch(old(q).value, legalMoves);
        q == Some(l.table) && r == Ok(l.row)
      ensures old(Valid()) ==> Valid()
    {
      if q.None? {
        return Err(NullPointer);
      }
      if legalMoves !in q.value {
        var moveValues := seq(|legalMoves|, _ => 0.0);
        q := Some(q.value[legalMoves := moveValues]);
      }
      return Ok(q.value[legalMoves]);
    }

    /** selectAction: for the allowed moves, a pre-drawn random index and a
        coin in [0, 1): copy the moves, keep the random index, and in the
        greedy branch replace it by the index of a strictly positive maximum.
        Returns the move at the kept index. */
    method SelectAction(allowedMoves: seq<Move>, random: int, coin: real) returns (r: Result<Move>)
      requires |allowedMoves| > 0 ==> 0 <= random < |allowedMoves|
      requires 0.0 <= coin < 1.0
      modifies this`q, this`legalMovesLastTurn, this`lastMoveMade
      ensures legalMovesLastTurn == Some(allowedMoves)
      ensures |allowedMoves| == 0 ==> r == Err(IllegalArgument) && q == old(q) && lastMoveMade == old(lastMoveMade)
      ensures |allowedMoves| > 0 ==>
        var d := Decide(old(q), allowedMoves, random, coin, epsilon);
        && q == d.table && lastMoveMade == d.lastMove
        && r == (if d.outcome.Fail? then Err(d.outcome.error)
                 else if 0 <= d.lastMove < |allowedMoves| then Ok(allowedMoves[d.lastMove])
                 else Err(IndexOutOfBounds))
      ensures |allowedMoves| > 0 && old(Valid()) ==> Valid() && (q.Some? || coin < 1.0 - epsilon ==> r.Ok?)
    {
      legalMovesLastTurn := Some([]);
      for i := 0 to |allowedMoves|
        invariant legalMovesLastTurn == Some(allowedMoves[..i])
        invariant q == old(q) && lastMoveMade == old(lastMoveMade)
      {
        assert allowedMoves[..i + 1] == allowedMoves[..i] + [allowedMoves[i]];
        legalMovesLastTurn := Some(legalMovesLastTurn.value + [allowedMoves[i]]);
      }
      assert allowedMoves[..|allowedMoves|] == allowedMoves;
      // ThreadLocalRandom.nextInt(size)
      if |allowedMoves| == 0 {
        return Err(IllegalArgument);
      }
      lastMoveMade := random;
      if coin >= 1.0 - epsilon {
        var qValues := GetQValues(legalMovesLastTurn.value);
        if qValues.Err? {
          return Err(qValues.error);
        }
        var row := qValues.value;
        var maxQValue := 0.0;
        var maxQIndex := 0;
        for i := 0 to |row|
          invariant maxQValue == ScanMax(row[..i]) && maxQIndex == ScanIndex(row[..i])
        {
          assert row[..i + 1][..i] == row[..i];
          if maxQValue < row[i] {
            maxQIndex := i;
            maxQValue := row[i];
          }
        }
        assert row[..|row|] == row;
        if maxQValue > 0.0 {
          lastMoveMade := maxQIndex;
        }
      }
      DecideInRangeIfValid(old(q), allowedMoves, random, coin);
      if !(0 <= lastMoveMade < |legalMovesLastTurn.value|) {
        return Err(IndexOutOfBounds);
      }
      return Ok(legalMovesLastTurn.value[lastMoveMade]);
    }

    /** Connects the validity of the table before the call to the range of
        the kept index. */
    lemma DecideInRangeIfValid(q0: Option<Table>, moves: seq<Move>, random: int, coin: real)
      requires 0 <= random < |moves|
      ensures (q0.Some? ==> RowsFit(q0.value)) ==>
        var d := Decide(q0, moves, random, coin, epsilon);
        0 <= d.lastMove < |moves| && (d.table.Some? ==> RowsFit(d.table.value))
    {
      if q0.Some? ==> RowsFit(q0.value) {
        DecideInRange(q0, moves, random, coin, epsilon);
      }
    }

    /** updateQ: with the moves legal now (None when the game gives none),
        revise the value of the last move made from the best value of the
        current position. Without a last turn, or without current moves, it
        returns at once. */
    method UpdateQ(currentRoundLegalMoves: Option<seq<Move>>, reward: real) returns (o: Outcome)
      modifies this`q
      ensures legalMovesLastTurn.None? || currentRoundLegalMoves.None? ==> o == Pass && q == old(q)
      ensures legalMovesLastTurn.Some? && currentRoundLegalMoves.Some? ==>
        var u := Learn(old(q), legalMovesLastTurn.value, currentRoundLegalMoves.value, lastMoveMade, reward, alpha, gamma);
        q == u.table && o == u.outcome
      ensures old(Valid()) ==> Valid()
    {
      var lastRoundLegalMoves := legalMovesLastTurn;
      if lastRoundLegalMoves.None? {
        return Pass;
      }
      if currentRoundLegalMoves.None? {
        return Pass;
      }
      var current := currentRoundLegalMoves.value;
      ghost var q0 := q;
      var currentRoundBestQValue := 0.0;
      if current != [] {
        var currentRoundQValues := GetQValues(current);
        if currentRoundQValues.Err? {
          return Fail(currentRoundQValues.error);
        }
        currentRoundBestQValue := BestQValue(currentRoundQValues.value);
      }
      assert q0.Some? ==> q == Some(Observe(q0.value, current).table);
      assert q0.Some? ==> currentRoundBestQValue == Bootstrap(Observe(q0.value, current).row);
      if q0.Some? {
        LearnKeys(q0.value, lastRoundLegalMoves.value, current, lastMoveMade, reward, alpha, gamma);
      }
      var lastRoundQValues := GetQValues(lastRoundLegalMoves.value);
      if lastRoundQValues.Err? {
        return Fail(lastRoundQValues.error);
      }
      var row := lastRoundQValues.value;
      assert q0.Some? ==>
        var l := Fetch(Observe(q0.value, current).table, lastRoundLegalMoves.value);
        q == Some(l.table) && row == l.row;
      if 0 <= lastMoveMade < |row| {
        var oldQValue := row[lastMoveMade];
        var newQValue := Revised(oldQValue, reward, currentRoundBestQValue, alpha, gamma);
        q := Some(q.value[lastRoundLegalMoves.value := row[lastMoveMade := newQValue]]);
      }
      return Pass;
    }
  }
}
