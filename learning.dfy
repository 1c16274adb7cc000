/** qlearning.learning.EpisodicGamePlayer: the training loop's integer
    bookkeeping. Each episode the engine's ranking is turned into rewards for
    the learning seats and into one win/loss/draw tally, the seats may be
    swapped, and on report ticks the seat-1 win rate is stored. */
module Learning {
  import opened JavaInt
  import opened JavaErrors

  /** What occupies an entry of the agent list: the null placeholder at
      index 0, a random agent, or a Q-learning agent. */
  datatype Seat = NoAgent | RandomAgent | Learner

  /** One updateQBackwards call: the index of the agent in the list and the
      reward passed. */
  datatype Call = Call(agent: int, reward: int)

  /** A stored win rate: the double (double) wins / games, kept as the pair
      (0 / 0 is the NaN Java stores when no game was played). */
  datatype Ratio = Ratio(wins: int, games: int)

  /** Rank 1 earns +1, rank 2 earns -1, any other rank 0. */
  function RewardFor(rank: real): (reward: int)
    ensures rank == 1.0 <==> reward == 1
    ensures rank == 2.0 <==> reward == -1
    ensures -1 <= reward <= 1
  {
    if rank == 1.0 then 1 else if rank == 2.0 then -1 else 0
  }

  /** The winner of a ranking over players 1..n: the LAST player ranked 1.0,
      or 0 when nobody is. Players past the end of the ranking count as
      unranked; rewardAIs throws before it could read them. */
  function Winner(ranking: seq<real>, n: nat): (w: nat)
    ensures w <= n
    ensures w == 0 <==> forall p :: 1 <= p <= n && p < |ranking| ==> ranking[p] != 1.0
    ensures w > 0 ==> w < |ranking| && ranking[w] == 1.0
    ensures forall p :: w < p <= n && p < |ranking| ==> ranking[p] != 1.0
  {
    if n == 0 then 0
    else if n < |ranking| && ranking[n] == 1.0 then n
    else Winner(ranking, n - 1)
  }

  /** rewardAIs reads ais.get(playerToAgent(p)) and ranking[p] for every
      player p in 1..n; this says none of those reads is out of bounds. */
  predicate InBounds(ais: seq<Seat>, ranking: seq<real>, playerToAgent: int -> int, n: nat)
  {
    && (n == 0 || n < |ranking|)
    && forall p :: 1 <= p <= n ==> 0 <= playerToAgent(p) < |ais|
  }

  /** performOneEpisode calls initAI on ais.get(p) for every player p in
      1..n before the game is played; this says none of those reads is out
      of bounds. */
  predicate Initialises(ais: seq<Seat>, n: nat)
  {
    n < |ais|
  }

  /** The updateQBackwards calls rewardAIs makes, in player order: one per
      player whose agent is a Q-learning agent. */
  function Calls(ais: seq<Seat>, ranking: seq<real>, playerToAgent: int -> int, n: nat): seq<Call>
    requires InBounds(ais, ranking, playerToAgent, n)
  {
    if n == 0 then []
    else
      var a := playerToAgent(n);
      Calls(ais, ranking, playerToAgent, n - 1) +
        (if ais[a] == Learner then [Call(a, RewardFor(ranking[n]))] else [])
  }

  /** c is the call rewardAIs makes for player p, whose agent learns. */
  predicate CallFor(ais: seq<Seat>, ranking: seq<real>, playerToAgent: int -> int, p: int, c: Call)
  {
    && 0 <= playerToAgent(p) < |ais| && 0 <= p < |ranking|
    && ais[playerToAgent(p)] == Learner && c == Call(playerToAgent(p), RewardFor(ranking[p]))
  }

  /** c is the call rewardAIs makes for one of the players 1..n. */
  predicate FromLearner(ais: seq<Seat>, ranking: seq<real>, playerToAgent: int -> int, n: nat, c: Call)
  {
    exists p :: 1 <= p <= n && CallFor(ais, ranking, playerToAgent, p, c)
  }

  /** Every call goes to the agent of some player 1..n that is a Q-learning
      agent, with the reward of that player's rank, and every such player
      gets one. */
  lemma {:induction false} CallsAreLearners(ais: seq<Seat>, ranking: seq<real>, playerToAgent: int -> int, n: nat)
    requires InBounds(ais, ranking, playerToAgent, n)
    ensures forall i :: 0 <= i < |Calls(ais, ranking, playerToAgent, n)| ==>
      FromLearner(ais, ranking, playerToAgent, n, Calls(ais, ranking, playerToAgent, n)[i])
    ensures forall p :: 1 <= p <= n && ais[playerToAgent(p)] == Learner ==>
      Call(playerToAgent(p), RewardFor(ranking[p])) in Calls(ais, ranking, playerToAgent, n)
  {
    if n == 0 {
      assert Calls(ais, ranking, playerToAgent, n) == [];
    } else {
      CallsAreLearners(ais, ranking, playerToAgent, n - 1);
      var c := Calls(ais, ranking, playerToAgent, n);
      var prev := Calls(ais, ranking, playerToAgent, n - 1);
      forall i | 0 <= i < |c|
        ensures FromLearner(ais, ranking, playerToAgent, n, c[i])
      {
        if i < |prev| {
          assert c[i] == prev[i];
          assert FromLearner(ais, ranking, playerToAgent, n - 1, prev[i]);
          var p :| 1 <= p <= n - 1 && CallFor(ais, ranking, playerToAgent, p, prev[i]);
          assert CallFor(ais, ranking, playerToAgent, p, c[i]);
        } else {
          assert CallFor(ais, ranking, playerToAgent, n, c[i]);
        }
      }
      forall p | 1 <= p <= n && ais[playerToAgent(p)] == Learner
        ensures Call(playerToAgent(p), RewardFor(ranking[p])) in c
      {
        if p < n {
          assert Call(playerToAgent(p), RewardFor(ranking[p])) in prev;
        } else {
          assert c[|c| - 1] == Call(playerToAgent(n), RewardFor(ranking[n]));
        }
      }
    }
  }

  /** In a two-player game whose players map to seats 1 and 2, with one
      Q-learning seat s, rewardAIs calls updateQBackwards exactly once, for
      seat s, with the reward of seat s's rank. */
  lemma OneCallForTheLearner(ais: seq<Seat>, ranking: seq<real>, playerToAgent: int -> int, s: int)
    requires |ais| == 3 && 2 < |ranking|
    requires playerToAgent(1) == 1 && playerToAgent(2) == 2
    requires s in {1, 2} && ais[s] == Learner && ais[3 - s] != Learner
    ensures InBounds(ais, ranking, playerToAgent, 2)
    ensures Calls(ais, ranking, playerToAgent, 2) == [Call(s, RewardFor(ranking[s]))]
  {
    assert InBounds(ais, ranking, playerToAgent, 1);
    assert Calls(ais, ranking, playerToAgent, 0) == [];
  }

  /** The tallies of a run: seat-1 wins, seat-2 wins, and draws. */
  datatype Tallies = Tallies(ai1Wins: int, ai2Wins: int, draws: int)

  /** One more game: it adds one to seat 1's wins, to seat 2's wins, or
      to the draws, as the winner is player 1, player 2, or neither. */
  function Bump(t: Tallies, winner: nat): (t': Tallies)
    ensures t'.ai1Wins + t'.ai2Wins + t'.draws == t.ai1Wins + t.ai2Wins + t.draws + 1
  {
    if winner == 1 then t.(ai1Wins := t.ai1Wins + 1)
    else if winner == 2 then t.(ai2Wins := t.ai2Wins + 1)
    else t.(draws := t.draws + 1)
  }

  /** The tallies after episodes 0..e-1, chosen by the winner's seat (not by
      which agent sits there); they always add up to the number of games. */
  function Tally(rankingOf: int -> seq<real>, n: nat, e: nat): (t: Tallies)
    ensures 0 <= t.ai1Wins && 0 <= t.ai2Wins && 0 <= t.draws
    ensures t.ai1Wins + t.ai2Wins + t.draws == e
  {
    if e == 0 then Tallies(0, 0, 0)
    else Bump(Tally(rankingOf, n, e - 1), Winner(rankingOf(e - 1), n))
  }

  /** Seat-1 wins never decrease from one episode count to a larger one. */
  lemma {:induction false} TallyGrows(rankingOf: int -> seq<real>, n: nat, e: nat, e': nat)
    requires e <= e'
    ensures Tally(rankingOf, n, e).ai1Wins <= Tally(rankingOf, n, e').ai1Wins <= Tally(rankingOf, n, e).ai1Wins + (e' - e)
    decreases e' - e
  {
    if e < e' {
      TallyGrows(rankingOf, n, e, e' - 1);
    }
  }

  /** The seat swap: exchange entries 1 and 2. */
  function Swapped(ais: seq<Seat>): (s: seq<Seat>)
    requires |ais| >= 3
  {
    ais[1 := ais[2]][2 := ais[1]]
  }

  /** The swap keeps the length and entry 0 and every entry past 2, and two
      swaps restore the list. */
  lemma SwapProperties(ais: seq<Seat>)
    requires |ais| >= 3
    ensures |Swapped(ais)| == |ais| && Swapped(ais)[0] == ais[0]
    ensures Swapped(ais)[1] == ais[2] && Swapped(ais)[2] == ais[1]
    ensures forall i :: 3 <= i < |ais| ==> Swapped(ais)[i] == ais[i]
    ensures Swapped(Swapped(ais)) == ais
  {
  }

  /** ais.set(1, ais.get(2)); ais.set(2, temp), in place. */
  method SwapSeats(ais: array<Seat>) returns (o: Outcome)
    modifies ais
    ensures ais.Length < 3 ==> o == Fail(IndexOutOfBounds) && ais[..] == old(ais[..])
    ensures ais.Length >= 3 ==> o == Pass && ais[..] == Swapped(old(ais[..]))
  {
    if ais.Length < 3 {
      return Fail(IndexOutOfBounds);
    }
    var temp := ais[1];
    ais[1] := ais[2];
    ais[2] := temp;
    return Pass;
  }

  /** loadAIs: the null placeholder, then a Q-learning agent for each name
      "QLearningAI" and a random agent otherwise. */
  function LoadAIs(ai1: string, ai2: string): (ais: seq<Seat>)
    ensures |ais| == 3 && ais[0] == NoAgent
    ensures ais[1] == Learner <==> ai1 == "QLearningAI"
    ensures ais[2] == Learner <==> ai2 == "QLearningAI"
  {
    [NoAgent, if ai1 == "QLearningAI" then Learner else RandomAgent,
              if ai2 == "QLearningAI" then Learner else RandomAgent]
  }

  /** The agent list of the training run. */
  function InitialSeats(): seq<Seat>
  {
    LoadAIs("QLearningAI", "Random")
  }

  /** The agent list during episode e: swapped once after every episode
      when switching sides. */
  function Seating(switchSides: bool, e: nat): (ais: seq<Seat>)
    ensures |ais| == 3
  {
    if e == 0 then InitialSeats()
    else if switchSides then Swapped(Seating(switchSides, e - 1))
    else Seating(switchSides, e - 1)
  }

  /** The learner sits at seat 1 in even episodes and at seat 2 in odd ones
      when switching sides, and always at seat 1 otherwise. */
  lemma {:induction false} SeatingAlternates(switchSides: bool, e: nat)
    ensures Seating(switchSides, e) ==
      if switchSides && e % 2 == 1 then [NoAgent, RandomAgent, Learner] else [NoAgent, Learner, RandomAgent]
  {
    if e > 0 {
      SeatingAlternates(switchSides, e - 1);
    }
  }

  /** Every episode 0..e-1 gets through rewardAIs. */
  predicate Plays(rankingOf: int -> seq<real>, playerToAgentOf: int -> (int -> int), n: nat, switchSides: bool, e: int)
  {
    e <= 0 || (Plays(rankingOf, playerToAgentOf, n, switchSides, e - 1) &&
               InBounds(Seating(switchSides, e - 1), rankingOf(e - 1), playerToAgentOf(e - 1), n))
  }

  /** When episodes 0..e'-1 get through rewardAIs, each one of them does. */
  lemma {:induction false} PlaysEach(rankingOf: int -> seq<real>, playerToAgentOf: int -> (int -> int), n: nat, switchSides: bool,
                                     e: nat, e': int)
    requires Plays(rankingOf, playerToAgentOf, n, switchSides, e') && e < e'
    ensures InBounds(Seating(switchSides, e), rankingOf(e), playerToAgentOf(e), n)
    decreases e' - e
  {
    if e < e' - 1 {
      PlaysEach(rankingOf, playerToAgentOf, n, switchSides, e, e' - 1);
    }
  }

  /** All updateQBackwards calls of episodes 0..e-1, in order. */
  function AllCalls(rankingOf: int -> seq<real>, playerToAgentOf: int -> (int -> int), n: nat, switchSides: bool, e: nat): seq<Call>
    requires Plays(rankingOf, playerToAgentOf, n, switchSides, e)
  {
    if e == 0 then []
    else
      AllCalls(rankingOf, playerToAgentOf, n, switchSides, e - 1) +
        Calls(Seating(switchSides, e - 1), rankingOf(e - 1), playerToAgentOf(e - 1), n)
  }

  /** The report test divides only when numEpisodes > numTimesReport, and
      then throws unless the quotient is non-zero. */
  predicate TickDefined(numEpisodes: int32, numTimesReport: int32)
  {
    numEpisodes <= numTimesReport ||
      (numTimesReport != 0 && Wrap(Div(numEpisodes as int, numTimesReport as int)) != 0)
  }

  /** The report test after episode e: on every multiple of
      numEpisodes / numTimesReport except 0 (when there are more episodes
      than reports), and on episode 500; Java's truncating / and %. */
  function Tick(numEpisodes: int32, numTimesReport: int32, e: int): (r: Result<bool>)
    ensures r.Ok? <==> TickDefined(numEpisodes, numTimesReport)
    ensures r.Err? ==> r.error == Arithmetic
    ensures r.Ok? && e == 500 ==> r.value
    ensures r.Ok? && e == 0 ==> !r.value
  {
    if numEpisodes > numTimesReport then
      if numTimesReport == 0 then Err(Arithmetic)
      else
        var every := Wrap(Div(numEpisodes as int, numTimesReport as int));
        if every == 0 then Err(Arithmetic)
        else Ok((Rem(e, every as int) == 0 && e != 0) || e == 500)
    else Ok(e == 500)
  }

  /** The quotient of n by a smaller positive t is between 1 and n. */
  lemma QuotientBounds(n: int, t: int)
    requires 0 < t < n
    ensures 1 <= n / t <= n
  {
    var q, r := n / t, n % t;
    assert t * q == n - r > 0;
    if q > 0 {
      MultipleAtLeast(q, t);
    }
  }

  /** Below twice the divisor the quotient is 1. */
  lemma QuotientOne(n: int, t: int)
    requires 0 < t < n < 2 * t
    ensures n / t == 1
  {
    QuotientBounds(n, t);
    var q := n / t;
    assert t * q <= n;
    MultipleAtLeast(t, q);
    assert t * q == t * (q - 1) + t;
    if q > 1 {
      MultipleAtLeast(t, q - 1);
    }
  }

  /** With more episodes than reports, both positive, the test fires on the
      positive multiples of numEpisodes / numTimesReport and on 500. */
  lemma TickAtMultiples(numEpisodes: int32, numTimesReport: int32, e: nat)
    requires 0 < numTimesReport < numEpisodes
    ensures numEpisodes as int / numTimesReport as int >= 1
    ensures Tick(numEpisodes, numTimesReport, e) ==
      Ok((e % (numEpisodes as int / numTimesReport as int) == 0 && e != 0) || e == 500)
  {
    var n, t := numEpisodes as int, numTimesReport as int;
    QuotientBounds(n, t);
    var q := n / t;
    DivRemNatural(n, t);
    assert Wrap(q) as int == q;
    DivRemNatural(e, q);
  }

  /** The episodes among 0..e-1 on which a report is written. */
  function TickEpisodes(numEpisodes: int32, numTimesReport: int32, e: nat): (ticks: seq<nat>)
    requires e == 0 || TickDefined(numEpisodes, numTimesReport)
    ensures |ticks| <= e
    ensures forall j :: 0 <= j < |ticks| ==> ticks[j] < e
  {
    if e == 0 then []
    else
      TickEpisodes(numEpisodes, numTimesReport, e - 1) +
        if Tick(numEpisodes, numTimesReport, e - 1).value then [e - 1] else []
  }

  /** The ticks up to e are a prefix of the ticks up to any later e'. */
  lemma {:induction false} TicksGrow(numEpisodes: int32, numTimesReport: int32, e: nat, e': nat)
    requires e <= e' && TickDefined(numEpisodes, numTimesReport)
    ensures TickEpisodes(numEpisodes, numTimesReport, e) <= TickEpisodes(numEpisodes, numTimesReport, e')
    decreases e' - e
  {
    if e < e' {
      TicksGrow(numEpisodes, numTimesReport, e, e' - 1);
    }
  }

  /** When numTimesReport < numEpisodes < 2 * numTimesReport the quotient is 1
      and every episode but the first ticks: numEpisodes - 1 reports for
      numTimesReport + 1 slots, so the unguarded store overruns the array as
      soon as numEpisodes > numTimesReport + 2 (for example 7 episodes and 4
      reports). */
  lemma DenseReports(numEpisodes: int32, numTimesReport: int32, e: nat)
    requires 0 < numTimesReport < numEpisodes && numEpisodes as int < 2 * numTimesReport as int
    requires e <= numEpisodes as int
    ensures TickDefined(numEpisodes, numTimesReport)
    ensures |TickEpisodes(numEpisodes, numTimesReport, e)| == if e == 0 then 0 else e - 1
  {
    QuotientOne(numEpisodes as int, numTimesReport as int);
    TickAtMultiples(numEpisodes, numTimesReport, 0);
    if e > 0 {
      DenseReports(numEpisodes, numTimesReport, e - 1);
      TickAtMultiples(numEpisodes, numTimesReport, e - 1);
    }
  }

  /** The number of episodes a run plays: numEpisodes, or none when it is
      not positive. */
  function Episodes(numEpisodes: int32): nat
  {
    if numEpisodes < 0 then 0 else numEpisodes as int
  }

  /** The inputs of one training run: the arguments the bookkeeping depends
      on, the engine's ranking of each episode, the player-to-agent map of
      the state each episode's play leaves behind, and the game's player
      count. */
  datatype Run = Run(numEpisodes: int32, switchSides: bool, numTimesReport: int32,
                     rankingOf: int -> seq<real>, playerToAgentOf: int -> (int -> int), numPlayers: nat)

  /** The run's episode loop gets to the end: the array can be allocated and, when there are
      episodes, initAI finds every player in the agent list, the report test
      never throws, every episode's rewardAIs gets through, and there are no
      more report ticks than array slots. */
  predicate Completes(run: Run)
  {
    && Wrap(run.numTimesReport as int + 1) >= 0
    && (run.numEpisodes > 0 ==>
          && Initialises(InitialSeats(), run.numPlayers)
          && TickDefined(run.numEpisodes, run.numTimesReport)
          && Plays(run.rankingOf, run.playerToAgentOf, run.numPlayers, run.switchSides, run.numEpisodes as int)
          && |TickEpisodes(run.numEpisodes, run.numTimesReport, run.numEpisodes as int)| <= run.numTimesReport as int + 1)
  }

  /** One more episode that gets through rewardAIs extends the run's calls
      by the episode's calls. */
  lemma CallsStep(rankingOf: int -> seq<real>, playerToAgentOf: int -> (int -> int), n: nat, switchSides: bool, e: nat)
    requires Plays(rankingOf, playerToAgentOf, n, switchSides, e + 1)
    ensures InBounds(Seating(switchSides, e), rankingOf(e), playerToAgentOf(e), n)
    ensures AllCalls(rankingOf, playerToAgentOf, n, switchSides, e + 1) ==
      AllCalls(rankingOf, playerToAgentOf, n, switchSides, e) + Calls(Seating(switchSides, e), rankingOf(e), playerToAgentOf(e), n)
  {
  }

  /** The win-rate array during the run: slot j holds the rate after the
      episode of the j-th tick; later slots still hold 0.0. */
  predicate Reported(w: seq<Ratio>, ticks: seq<nat>, rankingOf: int -> seq<real>, n: nat)
  {
    && |ticks| <= |w|
    && (forall j :: 0 <= j < |ticks| ==> w[j] == Ratio(Tally(rankingOf, n, ticks[j] + 1).ai1Wins, ticks[j] + 1))
    && (forall j :: |ticks| <= j < |w| ==> w[j] == Ratio(0, 1))
  }

  /** The win-rate array after the run of e episodes: as during the run, but
      the first free slot, if any, holds the final rate. */
  predicate FinalReport(w: seq<Ratio>, ticks: seq<nat>, rankingOf: int -> seq<real>, n: nat, e: nat)
  {
    && |ticks| <= |w|
    && (forall j :: 0 <= j < |ticks| ==> w[j] == Ratio(Tally(rankingOf, n, ticks[j] + 1).ai1Wins, ticks[j] + 1))
    && (|ticks| < |w| ==> w[|ticks|] == Ratio(Tally(rankingOf, n, e).ai1Wins, e))
    && (forall j :: |ticks| < j < |w| ==> w[j] == Ratio(0, 1))
  }

  /** Storing the rate after episode e in the next free slot records one
      more tick. */
  lemma ReportedStore(w: seq<Ratio>, ticks: seq<nat>, rankingOf: int -> seq<real>, n: nat, e: nat)
    requires Reported(w, ticks, rankingOf, n) && |ticks| < |w|
    ensures Reported(w[|ticks| := Ratio(Tally(rankingOf, n, e + 1).ai1Wins, e + 1)], ticks + [e], rankingOf, n)
  {
  }

  /** The report test of episode e, when its tick finds a free slot, adds
      the rate after e + 1 episodes to the win-rate array. */
  lemma TicksStep(run: Run, e: nat, reports: seq<Ratio>, reportIndex: int)
    requires TickDefined(run.numEpisodes, run.numTimesReport)
    requires reportIndex == |TickEpisodes(run.numEpisodes, run.numTimesReport, e)|
    requires Reported(reports, TickEpisodes(run.numEpisodes, run.numTimesReport, e), run.rankingOf, run.numPlayers)
    requires Tick(run.numEpisodes, run.numTimesReport, e).value ==> reportIndex < |reports|
    ensures
      var tick := Tick(run.numEpisodes, run.numTimesReport, e).value;
      var ticks' := TickEpisodes(run.numEpisodes, run.numTimesReport, e + 1);
      && (if tick then reportIndex + 1 else reportIndex) == |ticks'|
      && Reported(if tick then reports[reportIndex := Ratio(Tally(run.rankingOf, run.numPlayers, e + 1).ai1Wins, e + 1)]
                  else reports,
                  ticks', run.rankingOf, run.numPlayers)
  {
    var ticks := TickEpisodes(run.numEpisodes, run.numTimesReport, e);
    var ticks' := TickEpisodes(run.numEpisodes, run.numTimesReport, e + 1);
    if Tick(run.numEpisodes, run.numTimesReport, e).value {
      assert ticks' == ticks + [e];
      ReportedStore(reports, ticks, run.rankingOf, run.numPlayers, e);
    } else {
      assert ticks' == ticks + [];
      assert ticks' == ticks;
    }
  }

  /** The trailing store after the last of e episodes turns the win-rate
      array during the run into the final one. */
  lemma ReportedFinal(w: seq<Ratio>, ticks: seq<nat>, rankingOf: int -> seq<real>, n: nat, e: nat)
    requires Reported(w, ticks, rankingOf, n)
    ensures FinalReport(if |ticks| < |w| then w[|ticks| := Ratio(Tally(rankingOf, n, e).ai1Wins, e)] else w,
                        ticks, rankingOf, n, e)
  {
  }

  /** The bookkeeping state of a run between episodes: the tallies, the
      calls made, the win-rate array and the index of its next free slot.
      The seats are Seating(switchSides, e). */
  datatype Progress = Progress(tallies: Tallies, calls: seq<Call>, reports: seq<Ratio>, reportIndex: nat)

  /** Episode e of the run, replayed on the state before it: the initAI
      loop of performOneEpisode (which throws when a player has no entry in
      the agent list), rewardAIs (which throws on a missing player or
      agent), the tally, the report
      test (which throws on a zero divisor), and the store on a tick (which
      throws when no slot is left). The updateQBackwards calls rewardAIs
      makes are logged, not run, so the exceptions they can throw are not
      part of an episode here. */
  function Advance(run: Run, e: nat, p: Progress): (r: Result<Progress>)
    ensures r.Err? ==> r.error in {IndexOutOfBounds, Arithmetic}
  {
    var seats := Seating(run.switchSides, e);
    var ranking := run.rankingOf(e);
    if !Initialises(seats, run.numPlayers) then Err(IndexOutOfBounds)
    else if !InBounds(seats, ranking, run.playerToAgentOf(e), run.numPlayers) then Err(IndexOutOfBounds)
    else
      var tallies := Bump(p.tallies, Winner(ranking, run.numPlayers));
      var calls := p.calls + Calls(seats, ranking, run.playerToAgentOf(e), run.numPlayers);
      var tick := Tick(run.numEpisodes, run.numTimesReport, e);
      if tick.Err? then Err(tick.error)
      else if !tick.value then Ok(Progress(tallies, calls, p.reports, p.reportIndex))
      else if p.reportIndex >= |p.reports| then Err(IndexOutOfBounds)
      else Ok(Progress(tallies, calls, p.reports[p.reportIndex := Ratio(tallies.ai1Wins, e + 1)], p.reportIndex + 1))
  }

  /** The run replayed episode by episode: the allocation of the win-rate
      array, then e episodes, stopping at the first exception. As in Advance,
      the logged updateQBackwards calls are not run, so their exceptions are
      not part of it. */
  function Train(run: Run, e: nat): (r: Result<Progress>)
    ensures r.Err? ==> r.error in {NegativeArraySize, IndexOutOfBounds, Arithmetic}
  {
    if e == 0 then
      var length := Wrap(run.numTimesReport as int + 1);
      if length < 0 then Err(NegativeArraySize)
      else Ok(Progress(Tallies(0, 0, 0), [], seq(length as int, _ => Ratio(0, 1)), 0))
    else
      var r := Train(run, e - 1);
      if r.Err? then r else Advance(run, e - 1, r.value)
  }

  /** One more episode of a replay that got through e episodes. */
  lemma TrainNext(run: Run, e: nat, p: Progress)
    requires Train(run, e) == Ok(p)
    ensures Train(run, e + 1) == Advance(run, e, p)
  {
  }

  /** What an episode that gets through tells: initAI and rewardAIs found
      every player, the report test divided, a tick found a free slot, and
      the new state. */
  lemma AdvanceOk(run: Run, e: nat, p: Progress)
    requires Advance(run, e, p).Ok?
    ensures Initialises(Seating(run.switchSides, e), run.numPlayers)
    ensures InBounds(Seating(run.switchSides, e), run.rankingOf(e), run.playerToAgentOf(e), run.numPlayers)
    ensures TickDefined(run.numEpisodes, run.numTimesReport)
    ensures
      var tallies := Bump(p.tallies, Winner(run.rankingOf(e), run.numPlayers));
      var tick := Tick(run.numEpisodes, run.numTimesReport, e).value;
      && (tick ==> p.reportIndex < |p.reports|)
      && Advance(run, e, p).value ==
           Progress(tallies,
                    p.calls + Calls(Seating(run.switchSides, e), run.rankingOf(e), run.playerToAgentOf(e), run.numPlayers),
                    if tick then p.reports[p.reportIndex := Ratio(tallies.ai1Wins, e + 1)] else p.reports,
                    if tick then p.reportIndex + 1 else p.reportIndex)
  {
  }

  /** An episode that gets through found every player, and adds its calls. */
  lemma AdvanceCalls(run: Run, e: nat, p: Progress, p': Progress)
    requires Advance(run, e, p) == Ok(p')
    ensures InBounds(Seating(run.switchSides, e), run.rankingOf(e), run.playerToAgentOf(e), run.numPlayers)
    ensures p'.calls == p.calls + Calls(Seating(run.switchSides, e), run.rankingOf(e), run.playerToAgentOf(e), run.numPlayers)
  {
  }

  /** An episode that gets through adds its winner to the tallies. */
  lemma AdvanceTallies(run: Run, e: nat, p: Progress, p': Progress)
    requires Advance(run, e, p) == Ok(p')
    ensures p'.tallies == Bump(p.tallies, Winner(run.rankingOf(e), run.numPlayers))
  {
  }

  /** An episode that gets through stores, on a tick, the new seat-1 wins
      over e + 1 games in the next free slot, which must exist. */
  lemma AdvanceReports(run: Run, e: nat, p: Progress, p': Progress)
    requires Advance(run, e, p) == Ok(p')
    ensures TickDefined(run.numEpisodes, run.numTimesReport)
    ensures
      var tick := Tick(run.numEpisodes, run.numTimesReport, e).value;
      && (tick ==> p.reportIndex < |p.reports|)
      && p'.reportIndex == (if tick then p.reportIndex + 1 else p.reportIndex)
      && p'.reports == if tick then p.reports[p.reportIndex := Ratio(p'.tallies.ai1Wins, e + 1)] else p.reports
  {
  }

  /** An episode that throws either missed a player in initAI, or missed a
      player or an agent in rewardAIs, or divided by zero in the report test,
      or found no free slot on a tick. */
  lemma AdvanceErr(run: Run, e: nat, p: Progress)
    requires Advance(run, e, p).Err?
    ensures || !Initialises(Seating(run.switchSides, e), run.numPlayers)
            || !InBounds(Seating(run.switchSides, e), run.rankingOf(e), run.playerToAgentOf(e), run.numPlayers)
            || !TickDefined(run.numEpisodes, run.numTimesReport)
            || (Tick(run.numEpisodes, run.numTimesReport, e).value && p.reportIndex >= |p.reports|)
  {
  }

  /** A replay that gets through e > 0 episodes got through e - 1 of them,
      and then through episode e - 1. */
  lemma TrainPrevious(run: Run, e: nat, p: Progress)
    requires e > 0 && Train(run, e) == Ok(p)
    ensures Train(run, e - 1).Ok? && Advance(run, e - 1, Train(run, e - 1).value) == Ok(p)
  {
  }

  /** A replay that gets through e' episodes got through every e <= e'. */
  lemma {:induction false} TrainOkBefore(run: Run, e: nat, e': nat)
    requires e <= e' && Train(run, e').Ok?
    ensures Train(run, e).Ok?
    decreases e' - e
  {
    if e < e' {
      TrainOkBefore(run, e, e' - 1);
    }
  }

  /** The replay's tallies after e episodes are the closed-form ones. */
  lemma {:induction false} TrainTallies(run: Run, e: nat, p: Progress)
    requires Train(run, e) == Ok(p)
    ensures p.tallies == Tally(run.rankingOf, run.numPlayers, e)
  {
    if e > 0 {
      TrainPrevious(run, e, p);
      var p0 := Train(run, e - 1).value;
      TrainTallies(run, e - 1, p0);
      AdvanceTallies(run, e - 1, p0, p);
    }
  }

  /** The replay's calls after e episodes are the closed-form ones, and
      every one of those episodes got through rewardAIs. */
  lemma {:induction false} TrainCalls(run: Run, e: nat, p: Progress)
    requires Train(run, e) == Ok(p)
    ensures Plays(run.rankingOf, run.playerToAgentOf, run.numPlayers, run.switchSides, e)
    ensures p.calls == AllCalls(run.rankingOf, run.playerToAgentOf, run.numPlayers, run.switchSides, e)
  {
    if e > 0 {
      TrainPrevious(run, e, p);
      var p0 := Train(run, e - 1).value;
      TrainCalls(run, e - 1, p0);
      AdvanceCalls(run, e - 1, p0, p);
      CallsStep(run.rankingOf, run.playerToAgentOf, run.numPlayers, run.switchSides, e - 1);
    }
  }

  /** Episode e - 1, when it gets through, keeps the win-rate array as
      Reported describes it, one episode further: on a tick it stores the
      rate after e episodes in the next free slot. */
  lemma ReportsStep(run: Run, e: nat, p0: Progress, p: Progress)
    requires e > 0 && TickDefined(run.numEpisodes, run.numTimesReport)
    requires
      var tick := Tick(run.numEpisodes, run.numTimesReport, e - 1).value;
      && (tick ==> p0.reportIndex < |p0.reports|)
      && p.reportIndex == (if tick then p0.reportIndex + 1 else p0.reportIndex)
      && p.reports == if tick then p0.reports[p0.reportIndex := Ratio(Tally(run.rankingOf, run.numPlayers, e).ai1Wins, e)]
                      else p0.reports
    requires |p0.reports| == run.numTimesReport as int + 1
    requires p0.reportIndex == |TickEpisodes(run.numEpisodes, run.numTimesReport, e - 1)|
    requires Reported(p0.reports, TickEpisodes(run.numEpisodes, run.numTimesReport, e - 1), run.rankingOf, run.numPlayers)
    ensures |p.reports| == run.numTimesReport as int + 1
    ensures p.reportIndex == |TickEpisodes(run.numEpisodes, run.numTimesReport, e)|
    ensures Reported(p.reports, TickEpisodes(run.numEpisodes, run.numTimesReport, e), run.rankingOf, run.numPlayers)
  {
    TicksStep(run, e - 1, p0.reports, p0.reportIndex);
  }

  /** The replay's win-rate array after e episodes has the length of the
      allocation, its next free slot counts the ticks so far, and it holds
      the rates of Reported. */
  lemma {:induction false} TrainReports(run: Run, e: nat, p: Progress)
    requires Train(run, e) == Ok(p)
    ensures e > 0 ==> TickDefined(run.numEpisodes, run.numTimesReport)
    ensures |p.reports| == run.numTimesReport as int + 1
    ensures p.reportIndex == |TickEpisodes(run.numEpisodes, run.numTimesReport, e)|
    ensures Reported(p.reports, TickEpisodes(run.numEpisodes, run.numTimesReport, e), run.rankingOf, run.numPlayers)
  {
    if e > 0 {
      TrainPrevious(run, e, p);
      var p0 := Train(run, e - 1).value;
      TrainReports(run, e - 1, p0);
      TrainTallies(run, e, p);
      AdvanceReports(run, e - 1, p0, p);
      ReportsStep(run, e, p0, p);
    } else {
      TrainStart(run, p);
    }
  }

  /** Before the first episode the win-rate array holds numTimesReport + 1
      zero rates and no slot is used. */
  lemma TrainStart(run: Run, p: Progress)
    requires Train(run, 0) == Ok(p)
    ensures |p.reports| == run.numTimesReport as int + 1 && p.reportIndex == 0
    ensures Reported(p.reports, [], run.rankingOf, run.numPlayers)
  {
    var length := Wrap(run.numTimesReport as int + 1);
    assert length as int == run.numTimesReport as int + 1;
    forall j | 0 <= j < |p.reports|
      ensures p.reports[j] == Ratio(0, 1)
    {
    }
  }

  /** With more players than the agent list has seats, every episode
      throws in its initAI loop, before any bookkeeping; a run with episodes
      then does not complete. */
  lemma StopsInInit(run: Run, e: nat, p: Progress)
    requires run.numPlayers >= 3
    ensures Advance(run, e, p) == Err(IndexOutOfBounds)
    ensures run.numEpisodes > 0 ==> !Completes(run)
  {
  }

  /** One pass of the episode loop on a replay that got through e episodes:
      an episode that gets through extends the replay, and one that throws
      means the run does not complete; with more players than seats it is
      the first episode, and it throws an index exception before any
      bookkeeping. */
  lemma EpisodeStep(run: Run, e: nat, p: Progress, o: Outcome, p': Progress)
    requires e < Episodes(run.numEpisodes) && Train(run, e) == Ok(p)
    requires o.Fail? ==> Advance(run, e, p) == Err(o.error)
    requires o.Pass? ==> Advance(run, e, p) == Ok(p')
    ensures o.Pass? ==> Train(run, e + 1) == Ok(p')
    ensures o.Fail? ==>
      && o.error in {IndexOutOfBounds, Arithmetic}
      && !Completes(run)
    ensures run.numPlayers >= 3 ==>
      && e == 0 && p.tallies == Tallies(0, 0, 0)
      && o == Fail(IndexOutOfBounds)
  {
    TrainNext(run, e, p);
    if o.Fail? {
      StepFails(run, e, p, o.error);
    }
    if run.numPlayers >= 3 {
      StepBlocked(run, e, p);
    }
  }

  /** An episode that throws after e replayed episodes throws an index or
      arithmetic exception, and the run does not complete. */
  lemma StepFails(run: Run, e: nat, p: Progress, error: Exception)
    requires e < Episodes(run.numEpisodes) && Train(run, e) == Ok(p)
    requires Advance(run, e, p) == Err(error)
    ensures error in {IndexOutOfBounds, Arithmetic}
    ensures !Completes(run)
  {
    TrainNext(run, e, p);
    TrainStops(run, e + 1);
  }

  /** With more players than seats, only the allocation is replayed, and the
      first episode throws an index exception. */
  lemma StepBlocked(run: Run, e: nat, p: Progress)
    requires Train(run, e) == Ok(p) && run.numPlayers >= 3
    ensures e == 0 && p.tallies == Tallies(0, 0, 0)
    ensures Advance(run, e, p) == Err(IndexOutOfBounds)
  {
    TrainBlocked(run, e, p);
    StopsInInit(run, e, p);
  }

  /** With more players than seats, a replay gets through no episode: only
      the allocation, with the counters reset, can get through. */
  lemma TrainBlocked(run: Run, e: nat, p: Progress)
    requires Train(run, e) == Ok(p)
    ensures run.numPlayers >= 3 ==> e == 0 && p.tallies == Tallies(0, 0, 0)
  {
  }

  /** An episode whose rewardAIs throws means the run does not complete. */
  lemma StopsInRewards(run: Run, e: nat)
    requires e < Episodes(run.numEpisodes)
    requires !InBounds(Seating(run.switchSides, e), run.rankingOf(e), run.playerToAgentOf(e), run.numPlayers)
    ensures !Completes(run)
  {
    if Completes(run) {
      PlaysEach(run.rankingOf, run.playerToAgentOf, run.numPlayers, run.switchSides, e, run.numEpisodes as int);
    }
  }

  /** A tick with no free slot left means the run does not complete: the
      ticks so far already fill the array. */
  lemma StopsInReport(run: Run, e: nat)
    requires e < Episodes(run.numEpisodes)
    requires TickDefined(run.numEpisodes, run.numTimesReport)
    requires Tick(run.numEpisodes, run.numTimesReport, e).value
    requires |TickEpisodes(run.numEpisodes, run.numTimesReport, e)| >= run.numTimesReport as int + 1
    ensures !Completes(run)
  {
    var ticks := TickEpisodes(run.numEpisodes, run.numTimesReport, e);
    assert TickEpisodes(run.numEpisodes, run.numTimesReport, e + 1) == ticks + [e];
    TicksGrow(run.numEpisodes, run.numTimesReport, e + 1, run.numEpisodes as int);
  }

  /** A replay that throws within the run's episodes means the run does not
      complete. */
  lemma {:induction false} TrainStops(run: Run, e: nat)
    requires Train(run, e).Err? && e <= Episodes(run.numEpisodes)
    ensures !Completes(run)
  {
    if e > 0 {
      var r := Train(run, e - 1);
      if r.Err? {
        TrainStops(run, e - 1);
      } else {
        StopsAfter(run, e - 1, r.value);
      }
    }
  }

  /** An episode that throws after a replay that got through the episodes
      before it means the run does not complete. */
  lemma StopsAfter(run: Run, e: nat, p: Progress)
    requires e < Episodes(run.numEpisodes) && Train(run, e) == Ok(p)
    requires Advance(run, e, p).Err?
    ensures !Completes(run)
  {
    TrainReports(run, e, p);
    StopsInEpisode(run, e, p);
  }

  /** An episode that throws, within the run's episodes and after a replay
      that left the win-rate array as TrainReports says, means the run does
      not complete. */
  lemma StopsInEpisode(run: Run, e: nat, p: Progress)
    requires e < Episodes(run.numEpisodes) && Advance(run, e, p).Err?
    requires e == 0 || TickDefined(run.numEpisodes, run.numTimesReport)
    requires |p.reports| == run.numTimesReport as int + 1
    requires p.reportIndex == |TickEpisodes(run.numEpisodes, run.numTimesReport, e)|
    ensures !Completes(run)
  {
    AdvanceErr(run, e, p);
    if !Initialises(Seating(run.switchSides, e), run.numPlayers) {
    } else if !InBounds(Seating(run.switchSides, e), run.rankingOf(e), run.playerToAgentOf(e), run.numPlayers) {
      StopsInRewards(run, e);
    } else if TickDefined(run.numEpisodes, run.numTimesReport) {
      StopsInReport(run, e);
    }
  }

  /** A replay that gets through every episode means the run completes,
      with the tallies, the calls and the win rates of the closed forms. */
  lemma TrainCompletes(run: Run)
    requires Train(run, Episodes(run.numEpisodes)).Ok?
    ensures Completes(run)
    ensures
      var e := Episodes(run.numEpisodes);
      var p := Train(run, e).value;
      var ticks := TickEpisodes(run.numEpisodes, run.numTimesReport, e);
      && |p.reports| == run.numTimesReport as int + 1
      && p.tallies == Tally(run.rankingOf, run.numPlayers, e)
      && Plays(run.rankingOf, run.playerToAgentOf, run.numPlayers, run.switchSides, e)
      && p.calls == AllCalls(run.rankingOf, run.playerToAgentOf, run.numPlayers, run.switchSides, e)
      && p.reportIndex == |ticks| <= |p.reports|
      && FinalReport(if p.reportIndex < |p.reports| then p.reports[p.reportIndex := Ratio(p.tallies.ai1Wins, e)]
                     else p.reports,
                     ticks, run.rankingOf, run.numPlayers, e)
  {
    var e := Episodes(run.numEpisodes);
    var p := Train(run, e).value;
    TrainOkBefore(run, 0, e);
    TrainTallies(run, e, p);
    TrainCalls(run, e, p);
    TrainReports(run, e, p);
    ReportedFinal(p.reports, TickEpisodes(run.numEpisodes, run.numTimesReport, e), run.rankingOf, run.numPlayers, e);
  }

  class EpisodicGamePlayer {
    /** The number of players of the loaded game. */
    const numPlayers: nat
    var numTotalGames: int
    var numAI1Wins: int
    var numAI2Wins: int
    var numDraws: int

    /** The game itself is not modelled; only its player count is kept. */
    constructor (numPlayers: nat)
      ensures this.numPlayers == numPlayers
      ensures numTotalGames == 0 && numAI1Wins == 0 && numAI2Wins == 0 && numDraws == 0
    {
      this.numPlayers := numPlayers;
      numTotalGames, numAI1Wins, numAI2Wins, numDraws := 0, 0, 0, 0;
    }

    /** rewardAIs: for every player read its agent and rank, remember the
        last player ranked 1.0, and reward every Q-learning agent; then add
        one to the tally of the winning seat (seat 1, seat 2, or a draw).
        Size mismatches only print. Returns the updateQBackwards calls made. */
    method RewardAIs(ais: seq<Seat>, ranking: seq<real>, playerToAgent: int -> int)
      returns (calls: seq<Call>, o: Outcome)
      modifies this`numAI1Wins, this`numAI2Wins, this`numDraws
      ensures !InBounds(ais, ranking, playerToAgent, numPlayers) ==>
        && o == Fail(IndexOutOfBounds)
        && numAI1Wins == old(numAI1Wins) && numAI2Wins == old(numAI2Wins) && numDraws == old(numDraws)
      ensures InBounds(ais, ranking, playerToAgent, numPlayers) ==>
        && o == Pass
        && calls == Calls(ais, ranking, playerToAgent, numPlayers)
        && Tallies(numAI1Wins, numAI2Wins, numDraws) ==
             Bump(Tallies(old(numAI1Wins), old(numAI2Wins), old(numDraws)), Winner(ranking, numPlayers))
    {
      var winner := 0;
      calls := [];
      for p := 1 to numPlayers + 1
        invariant InBounds(ais, ranking, playerToAgent, p - 1)
        invariant winner == Winner(ranking, p - 1)
        invariant calls == Calls(ais, ranking, playerToAgent, p - 1)
      {
        var agent := playerToAgent(p);
        if !(0 <= agent < |ais|) || !(p < |ranking|) {
          return calls, Fail(IndexOutOfBounds);
        }
        var ai := ais[agent];
        if ranking[p] == 1.0 {
          winner := p;
        }
        if ai == Learner {
          calls := calls + [Call(agent, RewardFor(ranking[p]))];
        }
      }
      if winner == 1 {
        numAI1Wins := numAI1Wins + 1;
      } else if winner == 2 {
        numAI2Wins := numAI2Wins + 1;
      } else {
        numDraws := numDraws + 1;
      }
      return calls, Pass;
    }

    /** The bookkeeping of one episode once the game is over: rewardAIs,
        the seat swap when switching sides, and one more game counted. */
    method PlayEpisode(ais: array<Seat>, ranking: seq<real>, playerToAgent: int -> int, switchSides: bool)
      returns (calls: seq<Call>, o: Outcome)
      requires ais.Length == 3
      modifies this`numTotalGames, this`numAI1Wins, this`numAI2Wins, this`numDraws, ais
      ensures !InBounds(old(ais[..]), ranking, playerToAgent, numPlayers) ==> o == Fail(IndexOutOfBounds)
      ensures InBounds(old(ais[..]), ranking, playerToAgent, numPlayers) ==>
        && o == Pass
        && calls == Calls(old(ais[..]), ranking, playerToAgent, numPlayers)
        && Tallies(numAI1Wins, numAI2Wins, numDraws) ==
             Bump(Tallies(old(numAI1Wins), old(numAI2Wins), old(numDraws)), Winner(ranking, numPlayers))
        && numTotalGames == old(numTotalGames) + 1
        && ais[..] == if switchSides then Swapped(old(ais[..])) else old(ais[..])
    {
      calls, o := RewardAIs(ais[..], ranking, playerToAgent);
      if o.Fail? {
        return;
      }
      if switchSides {
        var swapped := SwapSeats(ais);
      }
      numTotalGames := numTotalGames + 1;
    }

    /** One pass of performTrainingVSRandomAI's episode loop: the initAI
        loop of performOneEpisode, then, once the game is over, the
        episode's bookkeeping, the report test, and on a tick the seat-1 win
        rate stored at the next slot. */
    method TrainEpisode(numEpisodes: int32, switchSides: bool, numTimesReport: int32,
                        rankingOf: int -> seq<real>, playerToAgentOf: int -> (int -> int), episode: nat,
                        ais: array<Seat>, winPercentage: array<Ratio>, calls: seq<Call>, reportIndex: nat)
      returns (o: Outcome, calls': seq<Call>, reportIndex': nat)
      requires ais.Length == 3 && ais[..] == Seating(switchSides, episode) && numTotalGames == episode
      modifies this`numTotalGames, this`numAI1Wins, this`numAI2Wins, this`numDraws, ais, winPercentage
      ensures
        var before := Progress(Tallies(old(numAI1Wins), old(numAI2Wins), old(numDraws)), calls,
                               old(winPercentage[..]), reportIndex);
        var next := Advance(Run(numEpisodes, switchSides, numTimesReport, rankingOf, playerToAgentOf, numPlayers),
                            episode, before);
        && (o.Fail? ==> next == Err(o.error))
        && (o.Pass? ==>
              && next == Ok(Progress(Tallies(numAI1Wins, numAI2Wins, numDraws), calls', winPercentage[..], reportIndex'))
              && numTotalGames == episode + 1
              && ais[..] == Seating(switchSides, episode + 1))
      ensures numPlayers >= ais.Length ==>
        && o == Fail(IndexOutOfBounds)
        && numTotalGames == old(numTotalGames) && numAI1Wins == old(numAI1Wins)
        && numAI2Wins == old(numAI2Wins) && numDraws == old(numDraws)
    {
      calls', reportIndex' := calls, reportIndex;
      // performOneEpisode: initAI on ais.get(p) for p in 1..numPlayers
      if numPlayers >= ais.Length {
        return Fail(IndexOutOfBounds), calls', reportIndex';
      }
      var episodeCalls, played := PlayEpisode(ais, rankingOf(episode), playerToAgentOf(episode), switchSides);
      if played.Fail? {
        return played, calls', reportIndex';
      }
      calls' := calls + episodeCalls;
      var tick := Tick(numEpisodes, numTimesReport, episode);
      if tick.Err? {
        return Fail(tick.error), calls', reportIndex';
      }
      if tick.value {
        if reportIndex >= winPercentage.Length {
          return Fail(IndexOutOfBounds), calls', reportIndex';
        }
        winPercentage[reportIndex] := Ratio(numAI1Wins, numTotalGames);
        reportIndex' := reportIndex + 1;
      }
      return Pass, calls', reportIndex';
    }

    /** performTrainingVSRandomAI's episode loop, from the state after the
        allocation to the end of the run or its first exception. */
    method PlayEpisodes(numEpisodes: int32, switchSides: bool, numTimesReport: int32,
                        rankingOf: int -> seq<real>, playerToAgentOf: int -> (int -> int),
                        ais: array<Seat>, winPercentage: array<Ratio>)
      returns (o: Outcome, calls: seq<Call>, reportIndex: nat)
      requires ais.Length == 3 && ais[..] == Seating(switchSides, 0) && numTotalGames == 0
      requires Train(Run(numEpisodes, switchSides, numTimesReport, rankingOf, playerToAgentOf, numPlayers), 0) ==
        Ok(Progress(Tallies(numAI1Wins, numAI2Wins, numDraws), [], winPercentage[..], 0))
      modifies this`numTotalGames, this`numAI1Wins, this`numAI2Wins, this`numDraws, ais, winPercentage
      ensures o.Fail? ==>
        && o.error in {IndexOutOfBounds, Arithmetic}
        && !Completes(Run(numEpisodes, switchSides, numTimesReport, rankingOf, playerToAgentOf, numPlayers))
      ensures o.Pass? ==>
        && numTotalGames == Episodes(numEpisodes)
        && Train(Run(numEpisodes, switchSides, numTimesReport, rankingOf, playerToAgentOf, numPlayers), Episodes(numEpisodes)) ==
             Ok(Progress(Tallies(numAI1Wins, numAI2Wins, numDraws), calls, winPercentage[..], reportIndex))
      ensures numEpisodes > 0 && numPlayers >= ais.Length ==>
        && o == Fail(IndexOutOfBounds)
        && numTotalGames == 0 && numAI1Wins == 0 && numAI2Wins == 0 && numDraws == 0
    {
      ghost var run := Run(numEpisodes, switchSides, numTimesReport, rankingOf, playerToAgentOf, numPlayers);
      calls, reportIndex := [], 0;
      var episode := 0;
      while episode < numEpisodes as int
        invariant ais.Length == 3 && numTotalGames == episode <= Episodes(numEpisodes)
        invariant ais[..] == Seating(switchSides, episode)
        invariant Train(run, episode) ==
          Ok(Progress(Tallies(numAI1Wins, numAI2Wins, numDraws), calls, winPercentage[..], reportIndex))
      {
        ghost var before := Progress(Tallies(numAI1Wins, numAI2Wins, numDraws), calls, winPercentage[..], reportIndex);
        o, calls, reportIndex := TrainEpisode(numEpisodes, switchSides, numTimesReport, rankingOf,
                                              playerToAgentOf, episode, ais, winPercentage, calls, reportIndex);
        EpisodeStep(run, episode, before, o,
                    Progress(Tallies(numAI1Wins, numAI2Wins, numDraws), calls, winPercentage[..], reportIndex));
        if o.Fail? {
          return;
        }
        episode := episode + 1;
      }
      return Pass, calls, reportIndex;
    }

    /** performTrainingVSRandomAI, bookkeeping only: for each episode take
        the engine's ranking, reward, swap seats if asked, count the game, and
        on a report tick store the seat-1 win rate at the next slot; at the
        end store the final rate in the next slot if there is one, and fetch
        the learner's table for saving. Returns the win-rate array and every
        updateQBackwards call made. The agent list has three entries, so
        with three or more players the first episode's initAI loop throws.
        The learner's table is created by initAI on the learner's seat, which
        is seat 1 in the first episode; so after a run of no episodes, or of
        a game without players, getQ finds none and throws an AssertionError,
        which the surrounding catch of Exception does not catch. */
    method PerformTrainingVSRandomAI(numEpisodes: int32, switchSidesEachEpisode: bool, numTimesReport: int32,
                                     rankingOf: int -> seq<real>, playerToAgentOf: int -> (int -> int))
      returns (r: Result<array<Ratio>>, calls: seq<Call>)
      modifies this`numTotalGames, this`numAI1Wins, this`numAI2Wins, this`numDraws
      ensures Wrap(numTimesReport as int + 1) < 0 ==>
        && r == Err(NegativeArraySize)
        && numTotalGames == 0 && numAI1Wins == 0 && numAI2Wins == 0 && numDraws == 0
      ensures numEpisodes <= 0 && Wrap(numTimesReport as int + 1) >= 0 ==>
        && r == Err(AssertionError)
        && numTotalGames == 0 && numAI1Wins == 0 && numAI2Wins == 0 && numDraws == 0
      ensures numEpisodes > 0 && numPlayers >= 3 && Wrap(numTimesReport as int + 1) >= 0 ==>
        && r == Err(IndexOutOfBounds)
        && numTotalGames == 0 && numAI1Wins == 0 && numAI2Wins == 0 && numDraws == 0
      ensures numPlayers == 0 ==>
        Completes(Run(numEpisodes, switchSidesEachEpisode, numTimesReport, rankingOf, playerToAgentOf, numPlayers)) ==>
        r == Err(AssertionError)
      ensures r.Ok? <==>
        numEpisodes > 0 && numPlayers > 0 &&
        Completes(Run(numEpisodes, switchSidesEachEpisode, numTimesReport, rankingOf, playerToAgentOf, numPlayers))
      ensures r.Err? ==> r.error in {NegativeArraySize, IndexOutOfBounds, Arithmetic, AssertionError}
      ensures r.Ok? ==>
        var episodes := Episodes(numEpisodes);
        && fresh(r.value) && r.value.Length == numTimesReport as int + 1
        && numTotalGames == episodes
        && Tallies(numAI1Wins, numAI2Wins, numDraws) == Tally(rankingOf, numPlayers, episodes)
        && calls == AllCalls(rankingOf, playerToAgentOf, numPlayers, switchSidesEachEpisode, episodes)
        && FinalReport(r.value[..], TickEpisodes(numEpisodes, numTimesReport, episodes), rankingOf, numPlayers, episodes)
    {
      ghost var run := Run(numEpisodes, switchSidesEachEpisode, numTimesReport, rankingOf, playerToAgentOf, numPlayers);
      numTotalGames, numAI1Wins, numAI2Wins, numDraws := 0, 0, 0, 0;
      calls := [];
      var length := Wrap(numTimesReport as int + 1);
      if length < 0 {
        return Err(NegativeArraySize), calls;
      }
      var winPercentage := new Ratio[length](_ => Ratio(0, 1));
      var reportIndex: nat := 0;
      var seats := InitialSeats();
      var ais := new Seat[3](i requires 0 <= i < 3 => seats[i]);
      assert ais[..] == Seating(switchSidesEachEpisode, 0);
      assert winPercentage[..] == seq(length as int, _ => Ratio(0, 1));
      var o;
      o, calls, reportIndex := PlayEpisodes(numEpisodes, switchSidesEachEpisode, numTimesReport, rankingOf,
                                            playerToAgentOf, ais, winPercentage);
      if o.Fail? {
        return Err(o.error), calls;
      }
      TrainCompletes(run);
      ghost var reports := winPercentage[..];
      if reportIndex < winPercentage.Length {
        winPercentage[reportIndex] := Ratio(numAI1Wins, numTotalGames);
      }
      assert winPercentage[..] ==
        if reportIndex < |reports| then reports[reportIndex := Ratio(numAI1Wins, Episodes(numEpisodes))] else reports;
      // qAI.getQ(): no episode ran initAI on the learner, so it has no table
      if numEpisodes <= 0 || numPlayers == 0 {
        return Err(AssertionError), calls;
      }
      return Ok(winPercentage), calls;
    }
  }
}
