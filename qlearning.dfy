/** qlearning.AI.QLearningAI: a tabular Q-learning agent. Its table maps a
    board hash to one value per legal move; it picks moves epsilon-greedily,
    records every decision of an episode, and at the end of the episode
    replays the record to apply the Q-learning update. */
module QLearning {
  import opened JavaInt
  import opened JavaErrors
  import opened Trial
  import Utils

  /** The Q table: board hash to the values of the legal moves there. */
  type Table = map<int, seq<real>>

  /** One recorded decision: board hash, chosen move index, number of legal moves. */
  datatype Step = Step(key: int, choice: int, numLegalMoves: int)

  /** Double.MAX_VALUE, exactly. */
  const DoubleMax: real := 179769313486231570814527423731704356798070567525844996598917476803157260780028538760589558632766878171540458953514382464234321326889464182768467546703537516986049910576551282076245490090389328944075868508455133942304583236903222948165808559332123348274797826204144723168738177180919299881250404026184124858368.0

  /** The start value of the max and argmax scans. The source writes
      -(Double.MAX_VALUE - 1); in double arithmetic the subtraction rounds back
      to Double.MAX_VALUE, so the value is -Double.MAX_VALUE. */
  const Sentinel: real := -DoubleMax

  function Zeros(n: nat): (r: seq<real>)
    ensures |r| == n && forall i :: 0 <= i < n ==> r[i] == 0.0
  {
    seq(n, _ => 0.0)
  }

  /** What getQValues leaves: the table afterwards and the row it returns. */
  datatype Lookup = Lookup(table: Table, row: seq<real>)

  /** getQValues on a table that exists: the stored row whatever length was
      asked for, or else a new all-zero row of the asked length, inserted. */
  function GetOrCreate(t: Table, key: int, n: int): (r: Result<Lookup>)
    ensures r.Ok? ==> key in r.value.table && r.value.table[key] == r.value.row
    ensures r.Ok? ==> r.value.table.Keys == t.Keys + {key}
    ensures r.Ok? ==> forall k :: k in t ==> r.value.table[k] == t[k]
    ensures key in t ==> r.Ok? && r.value.row == t[key]
    ensures key !in t ==> (r.Ok? <==> n >= 0) && (r.Ok? ==> r.value.row == Zeros(n))
    ensures r.Err? ==> r.error == NegativeArraySize
  {
    if key in t then Ok(Lookup(t, t[key]))
    else if n < 0 then Err(NegativeArraySize)
    else Ok(Lookup(t[key := Zeros(n)], Zeros(n)))
  }

  /** max: the largest entry, or the sentinel when no entry is above it. */
  function RowMax(row: seq<real>): (m: real)
    ensures Sentinel <= m
    ensures forall i :: 0 <= i < |row| ==> row[i] <= m
    ensures m == Sentinel || exists i :: 0 <= i < |row| && row[i] == m
  {
    if row == [] then Sentinel
    else
      var m := RowMax(row[..|row| - 1]);
      if m < row[|row| - 1] then row[|row| - 1] else m
  }

  /** argmax: the lowest index holding the maximum (the scan replaces only on
      a strictly greater entry), or -1 when no entry is above the sentinel. */
  function ArgMaxOf(row: seq<real>): (i: int)
    ensures -1 <= i < |row|
    ensures i == -1 <==> forall j :: 0 <= j < |row| ==> row[j] <= Sentinel
    ensures i >= 0 ==> row[i] == RowMax(row) && forall j :: 0 <= j < i ==> row[j] < row[i]
  {
    if row == [] then -1
    else
      var prefix := row[..|row| - 1];
      if RowMax(prefix) < row[|row| - 1] then |row| - 1 else ArgMaxOf(prefix)
  }

  /** For a row with an entry above the sentinel, max is the entry at argmax. */
  lemma MaxAtArgMax(row: seq<real>)
    requires exists j :: 0 <= j < |row| && row[j] > Sentinel
    ensures 0 <= ArgMaxOf(row) < |row| && RowMax(row) == row[ArgMaxOf(row)]
  {
  }

  /** The value one update stores. */
  function Updated(prior: real, reward: real, maxCurrent: real, alpha: real, gamma: real): real
  {
    (1.0 - alpha) * prior + alpha * (reward + gamma * maxCurrent)
  }

  /** The two forms of the update agree; a zero learning rate keeps the prior
      value, and full rate without discount stores the reward. */
  lemma UpdatedForms(prior: real, reward: real, maxCurrent: real, alpha: real, gamma: real)
    ensures Updated(prior, reward, maxCurrent, alpha, gamma) == prior + alpha * (reward + gamma * maxCurrent - prior)
    ensures alpha == 0.0 ==> Updated(prior, reward, maxCurrent, alpha, gamma) == prior
    ensures alpha == 1.0 && gamma == 0.0 ==> Updated(prior, reward, maxCurrent, alpha, gamma) == reward
  {
  }

  /** The state one turn of the replay loop leaves behind. */
  datatype Write = Write(table: Table, outcome: Outcome)

  /** One turn of the replay loop: fetch (or create) the current decision's
      row and take its max, fetch (or create) the previous decision's row and
      overwrite the previous decision's slot. */
  function StepUpdate(t: Table, cur: Step, prev: Step, reward: real, alpha: real, gamma: real): (w: Write)
    ensures t.Keys <= w.table.Keys <= t.Keys + {cur.key, prev.key}
  {
    match GetOrCreate(t, cur.key, cur.numLegalMoves)
    case Err(e) => Write(t, Fail(e))
    case Ok(current) =>
      var maxCurrent := RowMax(current.row);
      match GetOrCreate(current.table, prev.key, prev.numLegalMoves)
      case Err(e) => Write(current.table, Fail(e))
      case Ok(previous) =>
        if 0 <= prev.choice < |previous.row| then
          var v := Updated(previous.row[prev.choice], reward, maxCurrent, alpha, gamma);
          Write(previous.table[prev.key := previous.row[prev.choice := v]], Pass)
        else Write(previous.table, Fail(IndexOutOfBounds))
  }

  /** One turn keeps every row's length, gives a new row the length recorded
      with its decision, and changes no slot but the previous decision's. */
  lemma StepUpdateFrame(t: Table, cur: Step, prev: Step, reward: real, alpha: real, gamma: real)
    ensures var w := StepUpdate(t, cur, prev, reward, alpha, gamma);
      && (forall k :: k in t ==> |w.table[k]| == |t[k]|)
      && (forall k :: k in w.table && k !in t ==>
            if k == cur.key then |w.table[k]| == cur.numLegalMoves else |w.table[k]| == prev.numLegalMoves)
      && (forall k, c :: k in t && 0 <= c < |t[k]| && (k != prev.key || c != prev.choice) ==>
            w.table[k][c] == t[k][c])
      && (forall k, c :: k in w.table && k !in t && 0 <= c < |w.table[k]| && (k != prev.key || c != prev.choice) ==>
            w.table[k][c] == 0.0)
  {
  }

  /** The row lengths after one turn, without the slot contents: old rows
      keep theirs, a new row has the length recorded with its decision. */
  lemma StepUpdateLengths(t: Table, cur: Step, prev: Step, reward: real, alpha: real, gamma: real)
    ensures var w := StepUpdate(t, cur, prev, reward, alpha, gamma);
      && (forall k :: k in t ==> |w.table[k]| == |t[k]|)
      && (forall k :: k in w.table && k !in t ==>
            if k == cur.key then |w.table[k]| == cur.numLegalMoves else |w.table[k]| == prev.numLegalMoves)
  {
    StepUpdateFrame(t, cur, prev, reward, alpha, gamma);
  }

  /** One turn succeeds exactly when both rows can be had and the previous
      decision's index is inside its row; it then stores the updated value,
      bootstrapped from the max of the current decision's row. */
  lemma StepUpdateWrite(t: Table, cur: Step, prev: Step, reward: real, alpha: real, gamma: real)
    ensures var w := StepUpdate(t, cur, prev, reward, alpha, gamma);
      w.outcome.Pass? <==>
        && (cur.key in t || cur.numLegalMoves >= 0)
        && (prev.key in t || prev.key == cur.key || prev.numLegalMoves >= 0)
        && 0 <= prev.choice < |w.table[prev.key]|
    ensures var w := StepUpdate(t, cur, prev, reward, alpha, gamma);
      w.outcome.Pass? ==>
        var curRow := if cur.key in t then t[cur.key] else Zeros(cur.numLegalMoves);
        var before := if prev.key in t then t[prev.key][prev.choice] else 0.0;
        w.table[prev.key][prev.choice] == Updated(before, reward, RowMax(curRow), alpha, gamma)
    ensures var w := StepUpdate(t, cur, prev, reward, alpha, gamma);
      w.outcome.Fail? ==> w.outcome.error in {NegativeArraySize, IndexOutOfBounds}
  {
  }

  /** The state the replay leaves behind: the table, how it ended, and what is
      still in the history deque. */
  datatype Replay = Replay(table: Option<Table>, outcome: Outcome, remaining: seq<Step>)

  /** The replay loop of updateQBackwards from the decision `cur` over the
      decisions still in the deque, front first. The reward is added on the
      first turn only. An exception ends the loop with the entry it popped
      gone from the deque. */
  function Backward(q: Option<Table>, cur: Step, rest: seq<Step>, reward: real, alpha: real, gamma: real): Replay
    decreases |rest|
  {
    if rest == [] then Replay(q, Pass, [])
    else if q.None? then Replay(q, Fail(AssertionError), rest[1..])
    else
      var w := StepUpdate(q.value, cur, rest[0], reward, alpha, gamma);
      if w.outcome.Fail? then Replay(Some(w.table), w.outcome, rest[1..])
      else Backward(Some(w.table), rest[0], rest[1..], 0.0, alpha, gamma)
  }

  /** updateQBackwards on a non-empty history h, recorded oldest first: the
      head of the deque, h[0], is popped first and becomes the current decision. */
  function ReplayHistory(q: Option<Table>, h: seq<Step>, reward: real, alpha: real, gamma: real): Replay
    requires h != []
  {
    Backward(q, h[0], h[1..], reward, alpha, gamma)
  }

  /** A replay that completes leaves the history empty; a failing one has
      popped at least one entry, and what it leaves in the deque is the
      unpopped tail of the history, in order. */
  lemma ReplayDrains(q: Option<Table>, cur: Step, rest: seq<Step>, reward: real, alpha: real, gamma: real)
    ensures var r := Backward(q, cur, rest, reward, alpha, gamma);
      (r.outcome.Pass? ==> r.remaining == []) && |r.remaining| < |rest| + (if rest == [] then 1 else 0)
    ensures IsTail(Backward(q, cur, rest, reward, alpha, gamma).remaining, rest)
    ensures q.None? ==> Backward(q, cur, rest, reward, alpha, gamma).table == None
    ensures q.Some? ==> Backward(q, cur, rest, reward, alpha, gamma).table.Some?
  {
    ReplayShape(q, cur, rest, reward, alpha, gamma);
    ReplayTail(q, cur, rest, reward, alpha, gamma);
  }

  /** How much of the history a replay leaves, and whether it leaves a table. */
  lemma {:induction false} ReplayShape(q: Option<Table>, cur: Step, rest: seq<Step>, reward: real, alpha: real, gamma: real)
    ensures var r := Backward(q, cur, rest, reward, alpha, gamma);
      (r.outcome.Pass? ==> r.remaining == []) && |r.remaining| < |rest| + (if rest == [] then 1 else 0)
    ensures q.None? ==> Backward(q, cur, rest, reward, alpha, gamma).table == None
    ensures q.Some? ==> Backward(q, cur, rest, reward, alpha, gamma).table.Some?
    decreases |rest|
  {
    if rest != [] && q.Some? {
      var w := StepUpdate(q.value, cur, rest[0], reward, alpha, gamma);
      if w.outcome.Pass? {
        ReplayShape(Some(w.table), rest[0], rest[1..], 0.0, alpha, gamma);
      }
    }
  }

  /** `left` is what remains of `s` after popping entries from its front. */
  predicate IsTail(left: seq<Step>, s: seq<Step>)
  {
    |left| <= |s| && left == s[|s| - |left|..]
  }

  /** A tail of s minus its head is a tail of s. */
  lemma TailOfRest(left: seq<Step>, s: seq<Step>)
    requires s != [] && IsTail(left, s[1..])
    ensures IsTail(left, s)
  {
    assert s[1..][|s[1..]| - |left|..] == s[|s| - |left|..];
  }

  /** What a replay leaves in the deque is a tail of the history. */
  lemma {:induction false} ReplayTail(q: Option<Table>, cur: Step, rest: seq<Step>, reward: real, alpha: real, gamma: real)
    ensures IsTail(Backward(q, cur, rest, reward, alpha, gamma).remaining, rest)
    decreases |rest|
  {
    if rest != [] {
      if q.Some? && StepUpdate(q.value, cur, rest[0], reward, alpha, gamma).outcome.Pass? {
        var w := StepUpdate(q.value, cur, rest[0], reward, alpha, gamma);
        ReplayTail(Some(w.table), rest[0], rest[1..], 0.0, alpha, gamma);
        TailOfRest(Backward(Some(w.table), rest[0], rest[1..], 0.0, alpha, gamma).remaining, rest);
      } else {
        assert IsTail(rest[1..], rest[1..]);
        TailOfRest(rest[1..], rest);
      }
    }
  }

  /** The slots a history writes: every recorded decision but the first. */
  predicate WrittenBy(rest: seq<Step>, k: int, c: int)
  {
    exists j :: 0 <= j < |rest| && rest[j].key == k && rest[j].choice == c
  }

  lemma WrittenByCons(rest: seq<Step>, k: int, c: int)
    requires rest != []
    ensures WrittenBy(rest, k, c) <==> (rest[0].key == k && rest[0].choice == c) || WrittenBy(rest[1..], k, c)
  {
    if WrittenBy(rest[1..], k, c) {
      var j :| 0 <= j < |rest[1..]| && rest[1..][j].key == k && rest[1..][j].choice == c;
      assert rest[j + 1] == rest[1..][j];
    }
    if WrittenBy(rest, k, c) && (rest[0].key != k || rest[0].choice != c) {
      var j :| 0 <= j < |rest| && rest[j].key == k && rest[j].choice == c;
      assert rest[1..][j - 1] == rest[j];
    }
  }

  /** The replay never removes a key and never changes a row's length; a slot
      that no decision after the first names keeps its value. */
  lemma {:induction false} BackwardFrame(q: Table, cur: Step, rest: seq<Step>, reward: real, alpha: real, gamma: real)
    ensures var r := Backward(Some(q), cur, rest, reward, alpha, gamma);
      && r.table.Some?
      && q.Keys <= r.table.value.Keys
      && (forall k :: k in q ==> |r.table.value[k]| == |q[k]|)
      && (forall k, c :: k in q && 0 <= c < |q[k]| && !WrittenBy(rest, k, c) ==> r.table.value[k][c] == q[k][c])
    decreases |rest|
  {
    if rest != [] {
      var w := StepUpdate(q, cur, rest[0], reward, alpha, gamma);
      StepUpdateFrame(q, cur, rest[0], reward, alpha, gamma);
      if w.outcome.Pass? {
        BackwardFrame(w.table, rest[0], rest[1..], 0.0, alpha, gamma);
        forall k, c | k in q && 0 <= c < |q[k]| && !WrittenBy(rest, k, c)
          ensures w.table[k][c] == q[k][c] && !WrittenBy(rest[1..], k, c)
        {
          WrittenByCons(rest, k, c);
        }
      }
    }
  }

  /** The decision recorded first is never written (unless a later decision
      names the same slot). */
  lemma FirstDecisionUntouched(q: Table, h: seq<Step>, reward: real, alpha: real, gamma: real)
    requires h != [] && h[0].key in q && 0 <= h[0].choice < |q[h[0].key]|
    requires forall j :: 1 <= j < |h| ==> h[j].key != h[0].key || h[j].choice != h[0].choice
    ensures var r := ReplayHistory(Some(q), h, reward, alpha, gamma);
      && r.table.Some? && h[0].key in r.table.value && h[0].choice < |r.table.value[h[0].key]|
      && r.table.value[h[0].key][h[0].choice] == q[h[0].key][h[0].choice]
  {
    BackwardFrame(q, h[0], h[1..], reward, alpha, gamma);
    forall j | 0 <= j < |h[1..]|
      ensures h[1..][j].key != h[0].key || h[1..][j].choice != h[0].choice
    {
      assert h[1..][j] == h[j + 1];
    }
  }

  /** The keys and row lengths after the replay, without the slot contents. */
  lemma BackwardLengths(q: Table, cur: Step, rest: seq<Step>, reward: real, alpha: real, gamma: real)
    ensures var r := Backward(Some(q), cur, rest, reward, alpha, gamma);
      && r.table.Some?
      && q.Keys <= r.table.value.Keys
      && (forall k :: k in q ==> |r.table.value[k]| == |q[k]|)
  {
    BackwardFrame(q, cur, rest, reward, alpha, gamma);
  }

  /** The legal-move count of the first decision in steps made at board k. */
  function FirstCount(steps: seq<Step>, k: int): int
  {
    if steps == [] then 0 else if steps[0].key == k then steps[0].numLegalMoves else FirstCount(steps[1..], k)
  }

  predicate Recorded(steps: seq<Step>, k: int)
  {
    exists j :: 0 <= j < |steps| && steps[j].key == k
  }

  /** Every row the replay adds belongs to a recorded board and has the length
      recorded at the first decision made there. */
  lemma {:induction false} BackwardNewRows(q: Table, cur: Step, rest: seq<Step>, reward: real, alpha: real, gamma: real)
    ensures var r := Backward(Some(q), cur, rest, reward, alpha, gamma);
      r.table.Some? && forall k :: k in r.table.value && k !in q ==>
        Recorded([cur] + rest, k) && |r.table.value[k]| == FirstCount([cur] + rest, k)
    decreases |rest|
  {
    if rest != [] {
      var w := StepUpdate(q, cur, rest[0], reward, alpha, gamma);
      if w.outcome.Pass? {
        BackwardNewRows(w.table, rest[0], rest[1..], 0.0, alpha, gamma);
        NewRowsAfterPass(q, cur, rest, reward, alpha, gamma);
      } else {
        NewRowsAfterFail(q, cur, rest, reward, alpha, gamma);
      }
    }
  }

  /** The step of BackwardNewRows for a turn that succeeds: the rows the
      first turn adds and those the rest of the replay adds. */
  lemma NewRowsAfterPass(q: Table, cur: Step, rest: seq<Step>, reward: real, alpha: real, gamma: real)
    requires rest != []
    requires StepUpdate(q, cur, rest[0], reward, alpha, gamma).outcome.Pass?
    requires var w := StepUpdate(q, cur, rest[0], reward, alpha, gamma);
      var r := Backward(Some(w.table), rest[0], rest[1..], 0.0, alpha, gamma);
      r.table.Some? && forall k :: k in r.table.value && k !in w.table ==>
        Recorded([rest[0]] + rest[1..], k) && |r.table.value[k]| == FirstCount([rest[0]] + rest[1..], k)
    ensures var r := Backward(Some(q), cur, rest, reward, alpha, gamma);
      r.table.Some? && forall k :: k in r.table.value && k !in q ==>
        Recorded([cur] + rest, k) && |r.table.value[k]| == FirstCount([cur] + rest, k)
  {
    var w := StepUpdate(q, cur, rest[0], reward, alpha, gamma);
    StepUpdateLengths(q, cur, rest[0], reward, alpha, gamma);
    BackwardLengths(w.table, rest[0], rest[1..], 0.0, alpha, gamma);
    assert [rest[0]] + rest[1..] == rest;
    var r := Backward(Some(w.table), rest[0], rest[1..], 0.0, alpha, gamma);
    forall k | k in r.table.value && k !in q
      ensures Recorded([cur] + rest, k) && |r.table.value[k]| == FirstCount([cur] + rest, k)
    {
      if k in w.table {
        FirstOfTwo(cur, rest, k);
      } else {
        FirstOfTail(cur, rest, k);
      }
    }
  }

  /** The step of BackwardNewRows for a turn that throws: only the rows that
      turn fetched or created are new. */
  lemma NewRowsAfterFail(q: Table, cur: Step, rest: seq<Step>, reward: real, alpha: real, gamma: real)
    requires rest != []
    requires StepUpdate(q, cur, rest[0], reward, alpha, gamma).outcome.Fail?
    ensures var r := Backward(Some(q), cur, rest, reward, alpha, gamma);
      r.table.Some? && forall k :: k in r.table.value && k !in q ==>
        Recorded([cur] + rest, k) && |r.table.value[k]| == FirstCount([cur] + rest, k)
  {
    var w := StepUpdate(q, cur, rest[0], reward, alpha, gamma);
    StepUpdateLengths(q, cur, rest[0], reward, alpha, gamma);
    forall k | k in w.table && k !in q
      ensures Recorded([cur] + rest, k) && |w.table[k]| == FirstCount([cur] + rest, k)
    {
      FirstOfTwo(cur, rest, k);
    }
  }

  /** A board of one of the first two decisions is recorded, with the count
      of the first of the two made there. */
  lemma FirstOfTwo(cur: Step, rest: seq<Step>, k: int)
    requires rest != [] && (k == cur.key || k == rest[0].key)
    ensures Recorded([cur] + rest, k)
    ensures FirstCount([cur] + rest, k) == if k == cur.key then cur.numLegalMoves else rest[0].numLegalMoves
  {
    assert ([cur] + rest)[1..] == rest;
    if k == cur.key {
      assert ([cur] + rest)[0].key == k;
    } else {
      assert ([cur] + rest)[1].key == k;
    }
  }

  /** A board other than the first decision's is recorded, with the same
      first count, in the history with or without that decision. */
  lemma FirstOfTail(cur: Step, rest: seq<Step>, k: int)
    requires k != cur.key && Recorded(rest, k)
    ensures Recorded([cur] + rest, k) && FirstCount([cur] + rest, k) == FirstCount(rest, k)
  {
    assert ([cur] + rest)[1..] == rest;
    var j :| 0 <= j < |rest| && rest[j].key == k;
    assert ([cur] + rest)[j + 1].key == k;
  }

  /** With learning rate 0 the replay keeps every stored row as it was and
      adds only all-zero rows. */
  lemma {:induction false} ZeroRateKeepsValues(q: Table, cur: Step, rest: seq<Step>, reward: real, gamma: real)
    ensures var r := Backward(Some(q), cur, rest, reward, 0.0, gamma);
      && r.table.Some?
      && (forall k :: k in q ==> k in r.table.value && r.table.value[k] == q[k])
      && (forall k, c :: k in r.table.value && k !in q && 0 <= c < |r.table.value[k]| ==> r.table.value[k][c] == 0.0)
    decreases |rest|
  {
    if rest != [] {
      var w := StepUpdate(q, cur, rest[0], reward, 0.0, gamma);
      StepUpdateFrame(q, cur, rest[0], reward, 0.0, gamma);
      StepUpdateWrite(q, cur, rest[0], reward, 0.0, gamma);
      if w.outcome.Pass? {
        ZeroRateKeepsValues(w.table, rest[0], rest[1..], 0.0, gamma);
        var p := rest[0];
        var curRow := if cur.key in q then q[cur.key] else Zeros(cur.numLegalMoves);
        var before := if p.key in q then q[p.key][p.choice] else 0.0;
        UpdatedForms(before, reward, RowMax(curRow), 0.0, gamma);
        forall k | k in q
          ensures w.table[k] == q[k]
        {
          assert |w.table[k]| == |q[k]|;
        }
      }
    }
  }

  /** The slot of rest[j] is not named again after j. */
  predicate LastWrite(rest: seq<Step>, j: int)
    requires 0 <= j < |rest|
  {
    forall i :: j < i < |rest| ==> rest[i].key != rest[j].key || rest[i].choice != rest[j].choice
  }

  /** The head of a history that is the last write to its slot is not
      written again by the rest. */
  lemma LastWriteHead(rest: seq<Step>)
    requires rest != [] && LastWrite(rest, 0)
    ensures !WrittenBy(rest[1..], rest[0].key, rest[0].choice)
  {
    forall i | 0 <= i < |rest[1..]|
      ensures rest[1..][i].key != rest[0].key || rest[1..][i].choice != rest[0].choice
    {
      assert rest[1..][i] == rest[i + 1];
    }
  }

  /** A later entry that is the last write to its slot stays one in the
      tail of the history. */
  lemma LastWriteTail(rest: seq<Step>, j: int)
    requires 0 < j < |rest| && LastWrite(rest, j)
    ensures rest[1..][j - 1] == rest[j] && LastWrite(rest[1..], j - 1)
  {
    forall i | j - 1 < i < |rest[1..]|
      ensures rest[1..][i].key != rest[1..][j - 1].key || rest[1..][i].choice != rest[1..][j - 1].choice
    {
      assert rest[1..][i] == rest[i + 1];
    }
  }

  /** With learning rate 1 and no discount, a completed replay stores the
      reward in the slot of the second recorded decision and 0 in every other
      written slot (each slot taking its last write). */
  lemma {:induction false} FullRateStoresReward(q: Table, cur: Step, rest: seq<Step>, reward: real)
    requires Backward(Some(q), cur, rest, reward, 1.0, 0.0).outcome.Pass?
    ensures var t := Backward(Some(q), cur, rest, reward, 1.0, 0.0).table;
      t.Some? && forall j :: 0 <= j < |rest| && LastWrite(rest, j) ==>
        rest[j].key in t.value && 0 <= rest[j].choice < |t.value[rest[j].key]| &&
        t.value[rest[j].key][rest[j].choice] == if j == 0 then reward else 0.0
    decreases |rest|
  {
    if rest != [] {
      var w := StepUpdate(q, cur, rest[0], reward, 1.0, 0.0);
      StepUpdateWrite(q, cur, rest[0], reward, 1.0, 0.0);
      var curRow := if cur.key in q then q[cur.key] else Zeros(cur.numLegalMoves);
      var before := if rest[0].key in q then q[rest[0].key][rest[0].choice] else 0.0;
      UpdatedForms(before, reward, RowMax(curRow), 1.0, 0.0);
      FullRateStoresReward(w.table, rest[0], rest[1..], 0.0);
      BackwardFrame(w.table, rest[0], rest[1..], 0.0, 1.0, 0.0);
      var t := Backward(Some(w.table), rest[0], rest[1..], 0.0, 1.0, 0.0).table;
      forall j | 0 <= j < |rest| && LastWrite(rest, j)
        ensures rest[j].key in t.value && 0 <= rest[j].choice < |t.value[rest[j].key]|
        ensures t.value[rest[j].key][rest[j].choice] == if j == 0 then reward else 0.0
      {
        if j == 0 {
          LastWriteHead(rest);
        } else {
          LastWriteTail(rest, j);
        }
      }
    }
  }

  /** What selectAction decides once the board hash is known: the table it
      leaves and the move index it plays, or the exception it throws. */
  datatype Selection = Selection(table: Option<Table>, choice: Result<int>)

  /** The epsilon-greedy choice: the pre-drawn random index when the coin is
      below epsilon; otherwise the argmax of the board's row, created on first
      sight. An empty row, or an argmax that is no legal index, throws. */
  function Select(q: Option<Table>, key: int, n: int, random: int, coin: real, epsilon: real): (s: Selection)
    requires 0 <= random < n
    ensures s.choice.Ok? ==> 0 <= s.choice.value < n
  {
    if coin < epsilon then Selection(q, Ok(random))
    else if q.None? then Selection(q, Err(AssertionError))
    else match GetOrCreate(q.value, key, n)
      case Err(e) => Selection(q, Err(e))
      case Ok(l) =>
        if |l.row| == 0 then Selection(Some(l.table), Err(AssertionError))
        else
          var a := ArgMaxOf(l.row);
          if 0 <= a < n then Selection(Some(l.table), Ok(a)) else Selection(Some(l.table), Err(IndexOutOfBounds))
  }

  /** Exploring returns the random index and leaves the table alone. */
  lemma SelectExplores(q: Option<Table>, key: int, n: int, random: int, coin: real, epsilon: real)
    requires 0 <= random < n && coin < epsilon
    ensures Select(q, key, n, random, coin, epsilon) == Selection(q, Ok(random))
  {
  }

  /** Exploiting plays the lowest index of the row's maximum. */
  lemma SelectExploits(q: Table, key: int, n: int, random: int, coin: real, epsilon: real)
    requires 0 <= random < n && coin >= epsilon
    requires key in q ==> |q[key]| == n && exists j :: 0 <= j < n && q[key][j] > Sentinel
    ensures var s := Select(Some(q), key, n, random, coin, epsilon);
      var row := if key in q then q[key] else Zeros(n);
      && s.table == Some(if key in q then q else q[key := row])
      && s.choice.Ok?
      && row[s.choice.value] == RowMax(row)
      && forall j :: 0 <= j < s.choice.value ==> row[j] < row[s.choice.value]
  {
    var row := if key in q then q[key] else Zeros(n);
    assert row[0] > Sentinel || exists j :: 0 <= j < n && row[j] > Sentinel;
  }

  /** On a board never seen before the greedy branch plays index 0. */
  lemma SelectFreshBoard(q: Table, key: int, n: int, random: int, coin: real, epsilon: real)
    requires 0 <= random < n && coin >= epsilon && key !in q
    ensures Select(Some(q), key, n, random, coin, epsilon) == Selection(Some(q[key := Zeros(n)]), Ok(0))
  {
    SelectExploits(q, key, n, random, coin, epsilon);
    var s := Select(Some(q), key, n, random, coin, epsilon);
    assert Zeros(n)[0] == Zeros(n)[s.choice.value];
  }

  class QLearningAI {
    var player: int
    const alpha: real
    const gamma: real
    var epsilon: real
    /** Whether the agent records decisions and learns from them. */
    const learn: bool
    var q: Option<Table>
    /** The decisions of the current episode, oldest first. */
    var moveHistory: Option<seq<Step>>

    /** QLearningAI(alpha, gamma, epsilon, train): no table and no history yet. */
    constructor (alpha: real, gamma: real, epsilon: real, train: bool)
      ensures this.alpha == alpha && this.gamma == gamma && this.epsilon == epsilon && learn == train
      ensures player == -1 && q == None && moveHistory == None
    {
      player := -1;
      this.alpha, this.gamma, this.epsilon, learn := alpha, gamma, epsilon, train;
      q, moveHistory := None, None;
    }

    /** QLearningAI(alpha, gamma, epsilon): an agent that learns. */
    constructor Learning(alpha: real, gamma: real, epsilon: real)
      ensures this.alpha == alpha && this.gamma == gamma && this.epsilon == epsilon && learn
      ensures player == -1 && q == None && moveHistory == None
    {
      player := -1;
      this.alpha, this.gamma, this.epsilon, learn := alpha, gamma, epsilon, true;
      q, moveHistory := None, None;
    }

    /** QLearningAI(alpha, gamma, epsilon, modelName, train): the table is the
        one read from the model file (None when reading failed). */
    constructor FromModel(alpha: real, gamma: real, epsilon: real, loaded: Option<Table>, train: bool)
      ensures this.alpha == alpha && this.gamma == gamma && this.epsilon == epsilon && learn == train
      ensures player == -1 && q == loaded && moveHistory == None
    {
      player := -1;
      this.alpha, this.gamma, this.epsilon, learn := alpha, gamma, epsilon, train;
      q, moveHistory := loaded, None;
    }

    /** QLearningAI(): learning rate 0.01, discount 0.80, no exploration, not
        learning, with the table read from the default model file. */
    constructor Default(loaded: Option<Table>)
      ensures alpha == 0.01 && gamma == 0.80 && epsilon == 0.0 && !learn
      ensures player == -1 && q == loaded && moveHistory == None
    {
      player := -1;
      alpha, gamma, epsilon, learn := 0.01, 0.80, 0.0, false;
      q, moveHistory := loaded, None;
    }

    /** initAI: a new empty table on every call; a history only if there is none. */
    method InitAI(playerID: int)
      modifies this`player, this`q, this`moveHistory
      ensures player == playerID && q == Some(map[])
      ensures moveHistory == if old(moveHistory).None? then Some([]) else old(moveHistory)
    {
      player := playerID;
      q := Some(map[]);
      if moveHistory.None? {
        moveHistory := Some([]);
      }
    }

    method SetEpsilon(eps: real)
      modifies this`epsilon
      ensures epsilon == eps
    {
      epsilon := eps;
    }

    /** closeAI: drop the table and the history. */
    method CloseAI()
      modifies this`q, this`moveHistory
      ensures q == None && moveHistory == None
    {
      q, moveHistory := None, None;
    }

    /** getQ: the table, which must exist. */
    method GetQ() returns (r: Result<Table>)
      ensures q.None? ==> r == Err(AssertionError)
      ensures q.Some? ==> r == Ok(q.value)
    {
      if q.None? {
        return Err(AssertionError);
      }
      return Ok(q.value);
    }

    /** getQValues: the board's row, created as zeros on first sight. */
    method GetQValues(key: int, n: int) returns (r: Result<seq<real>>)
      modifies this`q
      ensures old(q).None? ==> r == Err(AssertionError) && q == old(q)
      ensures old(q).Some? ==>
        match GetOrCreate(old(q).value, key, n)
        case Ok(l) => q == Some(l.table) && r == Ok(l.row)
        case Err(e) => q == old(q) && r == Err(e)
    {
      if q.None? {
        return Err(AssertionError);
      }
      if key !in q.value {
        if n < 0 {
          return Err(NegativeArraySize);
        }
        var row := seq(n, _ => 0.0);
        q := Some(q.value[key := row]);
        return Ok(row);
      }
      return Ok(q.value[key]);
    }

    /** max: scan for the largest entry, starting from the sentinel. */
    method Max(row: seq<real>) returns (maxValue: real)
      ensures maxValue == RowMax(row)
    {
      maxValue := Sentinel;
      for i := 0 to |row|
        invariant maxValue == RowMax(row[..i])
      {
        assert row[..i + 1][..i] == row[..i];
        if maxValue < row[i] {
          maxValue := row[i];
        }
      }
      assert row[..|row|] == row;
    }

    /** argmax: scan for the first strictly greater entry, starting from the
        sentinel at index -1. */
    method ArgMax(row: seq<real>) returns (argMax: int)
      ensures argMax == ArgMaxOf(row)
    {
      var maxValue := Sentinel;
      argMax := -1;
      for i := 0 to |row|
        invariant maxValue == RowMax(row[..i])
        invariant argMax == ArgMaxOf(row[..i])
      {
        assert row[..i + 1][..i] == row[..i];
        if maxValue < row[i] {
          argMax := i;
          maxValue := row[i];
        }
      }
      assert row[..|row|] == row;
    }

    /** selectAction: for the legal moves of a position, the trial that led
        to it on a board of numSites sites, a pre-drawn random index and a coin
        in [0, 1): draw the random move, hash the board, choose
        epsilon-greedily, and record the decision at the tail of the history
        when learning. Returns the chosen legal move. */
    method SelectAction(legalMoves: seq<Move>, trial: seq<Move>, numSites: nat, randomLegalMove: int, coin: real)
      returns (r: Result<Move>)
      requires |legalMoves| > 0 ==> 0 <= randomLegalMove < |legalMoves|
      requires 0.0 <= coin < 1.0
      modifies this`q, this`moveHistory
      ensures |legalMoves| == 0 ==> r == Err(IllegalArgument) && q == old(q) && moveHistory == old(moveHistory)
      ensures |legalMoves| > 0 && Utils.HashOf(trial, numSites).Err? ==>
        r == Err(IndexOutOfBounds) && q == old(q) && moveHistory == old(moveHistory)
      ensures |legalMoves| > 0 && Utils.HashOf(trial, numSites).Ok? ==>
        var key := Utils.HashOf(trial, numSites).value as int;
        var s := Select(old(q), key, |legalMoves|, randomLegalMove, coin, epsilon);
        && q == s.table
        && (s.choice.Err? ==> r == Err(s.choice.error) && moveHistory == old(moveHistory))
        && (s.choice.Ok? && !learn ==> r == Ok(legalMoves[s.choice.value]) && moveHistory == old(moveHistory))
        && (s.choice.Ok? && learn && old(moveHistory).None? ==> r == Err(NullPointer) && moveHistory == old(moveHistory))
        && (s.choice.Ok? && learn && old(moveHistory).Some? ==>
              && r == Ok(legalMoves[s.choice.value])
              && moveHistory == Some(old(moveHistory).value + [Step(key, s.choice.value, |legalMoves|)]))
    {
      var numLegalMoves := |legalMoves|;
      // ThreadLocalRandom.nextInt(numLegalMoves)
      if numLegalMoves == 0 {
        return Err(IllegalArgument);
      }
      assert randomLegalMove < numLegalMoves;
      var hash := Utils.BoardToHashcode(trial, numSites);
      if hash.Err? {
        return Err(hash.error);
      }
      var key := hash.value as int;
      var moveChoice: int;
      if coin < epsilon {
        moveChoice := randomLegalMove;
      } else {
        var qValues := GetQValues(key, numLegalMoves);
        if qValues.Err? {
          return Err(qValues.error);
        }
        if |qValues.value| == 0 {
          return Err(AssertionError);
        }
        moveChoice := ArgMax(qValues.value);
      }
      // legalMoves.get(moveChoice)
      if !(0 <= moveChoice < numLegalMoves) {
        return Err(IndexOutOfBounds);
      }
      var selectedMove := legalMoves[moveChoice];
      if learn {
        if moveHistory.None? {
          return Err(NullPointer);
        }
        moveHistory := Some(moveHistory.value + [Step(key, moveChoice, numLegalMoves)]);
      }
      return Ok(selectedMove);
    }

    /** updateQBackwards: at the end of an episode, pop the head of the history
        as the current decision, then pop each following entry as the
        previous decision and update its slot from the current row's max;
        finally clear the history. */
    method UpdateQBackwards(reward: real) returns (o: Outcome)
      modifies this`q, this`moveHistory
      ensures !learn ==> o == Pass && q == old(q) && moveHistory == old(moveHistory)
      ensures learn && (old(moveHistory).None? || old(moveHistory).value == []) ==>
        o == Fail(AssertionError) && q == old(q) && moveHistory == old(moveHistory)
      ensures learn && old(moveHistory).Some? && old(moveHistory).value != [] ==>
        var r := ReplayHistory(old(q), old(moveHistory).value, reward, alpha, gamma);
        q == r.table && o == r.outcome && moveHistory == Some(r.remaining)
    {
      if !learn {
        return Pass;
      }
      if moveHistory.None? || moveHistory.value == [] {
        return Fail(AssertionError);
      }
      ghost var h := moveHistory.value;
      var current := moveHistory.value[0];
      moveHistory := Some(moveHistory.value[1..]);
      var r := reward;
      while moveHistory.value != []
        invariant moveHistory.Some?
        invariant Backward(q, current, moveHistory.value, r, alpha, gamma) == ReplayHistory(old(q), h, reward, alpha, gamma)
        decreases |moveHistory.value|
      {
        ghost var rest := moveHistory.value;
        var previous := moveHistory.value[0];
        moveHistory := Some(moveHistory.value[1..]);
        var currentRow := GetQValues(current.key, current.numLegalMoves);
        if currentRow.Err? {
          return Fail(currentRow.error);
        }
        var maxCurrent := Max(currentRow.value);
        var previousRow := GetQValues(previous.key, previous.numLegalMoves);
        if previousRow.Err? {
          return Fail(previousRow.error);
        }
        if !(0 <= previous.choice < |previousRow.value|) {
          return Fail(IndexOutOfBounds);
        }
        var updated := Updated(previousRow.value[previous.choice], r, maxCurrent, alpha, gamma);
        // the null check before Q.put: the row was just fetched or created
        assert previous.key in q.value;
        q := Some(q.value[previous.key := previousRow.value[previous.choice := updated]]);
        r := 0.0;
        current := previous;
      }
      moveHistory := Some([]);
      return Pass;
    }
  }
}
