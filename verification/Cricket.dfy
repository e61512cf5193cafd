/**
 The semaphore protocol of the cricket simulation: 22 * m player threads and a game thread hand one
 token around through two semaphores. Any number of matches, any scheduling.
 */
module Cricket {

  const SIDE := 11
  const NOONE := -1

  /** A player before and inside its critical region, and after it. */
  datatype Phase = Waiting | Entered | Batted | Scored | Done

  /** The game thread in match i: before the post, in the wait for match_done, in the summary. */
  datatype Game = Ready(i: nat) | Awaits(i: nat) | Sums(i: nat) | Over

  datatype Summary = Summary(capitals: int, titans: int, capitalsRuns: int, titansRuns: int, best: int)

  /** `order` lists the players that have added their score, first to last. */
  datatype State = State(
    m: nat, scores: seq<nat>,
    canModify: int, matchDone: int, players: seq<Phase>, game: Game,
    capitals: int, titans: int, capitalsRuns: int, titansRuns: int, best: int,
    summaries: seq<Summary>, bestOverall: int, bestTeam: int, order: seq<int>)

  datatype Step =
    | Enter(p: int)       // semaphore_wait(&can_modify)
    | Bat(p: int)         // count and add the score
    | Best(p: int)        // max_indiv_score
    | Leave(p: int)       // post to match_done or can_modify
    | Post                // the game thread posts to can_modify
    | Take                // semaphore_wait(&match_done)
    | Sum                 // the summary and the resets

  function Max(a: int, b: int): int { if a >= b then a else b }

  predicate Is(s: State, p: int, phase: Phase) {
    0 <= p < |s.players| && s.players[p] == phase
  }

  predicate May(s: State, step: Step) {
    && |s.scores| == |s.players|
    && match step
       case Enter(p) => Is(s, p, Waiting) && s.canModify > 0
       case Bat(p) => Is(s, p, Entered)
       case Best(p) => Is(s, p, Batted)
       case Leave(p) => Is(s, p, Scored)
       case Post => s.game.Ready?
       case Take => s.game.Awaits? && s.matchDone > 0
       case Sum => s.game.Sums?
  }

  function Goto(s: State, p: int, phase: Phase): State
    requires 0 <= p < |s.players|
  {
    s.(players := s.players[p := phase])
  }

  function Do(s: State, step: Step): State
    requires May(s, step)
  {
    match step
    case Enter(p) => Goto(s, p, Entered).(canModify := s.canModify - 1)
    case Bat(p) =>
      var t := Goto(s, p, Batted).(order := s.order + [p]);
      if s.capitals < SIDE then t.(capitals := s.capitals + 1, capitalsRuns := s.capitalsRuns + s.scores[p])
      else t.(titans := s.titans + 1, titansRuns := s.titansRuns + s.scores[p])
    case Best(p) => Goto(s, p, Scored).(best := Max(s.best, s.scores[p]))
    case Leave(p) =>
      if s.capitals == SIDE && s.titans == SIDE then Goto(s, p, Done).(matchDone := s.matchDone + 1)
      else Goto(s, p, Done).(canModify := s.canModify + 1)
    case Post => s.(canModify := s.canModify + 1, game := Awaits(s.game.i))
    case Take => s.(matchDone := s.matchDone - 1, game := Sums(s.game.i))
    case Sum =>
      s.(summaries := s.summaries + [Summary(s.capitals, s.titans, s.capitalsRuns, s.titansRuns, s.best)],
         bestOverall := Max(s.bestOverall, s.best),
         bestTeam := Max(s.bestTeam, Max(s.capitalsRuns, s.titansRuns)),
         capitals := 0, titans := 0, capitalsRuns := 0, titansRuns := 0, best := 0,
         game := if s.game.i + 1 < s.m then Ready(s.game.i + 1) else Over)
  }

  /** main and the start of game_fn, with all players created. */
  function Init(m: nat, scores: seq<nat>): State {
    State(m, scores, 0, 0, seq(|scores|, _ => Waiting), if m == 0 then Over else Ready(0),
          0, 0, 0, 0, 0, [], 0, 0, [])
  }

  // ------------------------------------------------------- what is counted

  /** The sum of the scores of the players listed. */
  function Total(scores: seq<nat>, ps: seq<int>): int
    requires InRange(ps, |scores|)
  {
    if ps == [] then 0 else Total(scores, ps[..|ps| - 1]) + scores[ps[|ps| - 1]]
  }

  /** The highest of them, at least 0. */
  function Highest(scores: seq<nat>, ps: seq<int>): int
    requires InRange(ps, |scores|)
  {
    if ps == [] then 0 else Max(Highest(scores, ps[..|ps| - 1]), scores[ps[|ps| - 1]])
  }

  /** The highest team score in some summaries. */
  function TopTeam(ss: seq<Summary>): int {
    if ss == [] then 0
    else
      var last := ss[|ss| - 1];
      Max(TopTeam(ss[..|ss| - 1]), Max(last.capitalsRuns, last.titansRuns))
  }

  predicate InRange(ps: seq<int>, n: int) { forall k :: 0 <= k < |ps| ==> 0 <= ps[k] < n }

  lemma {:induction false} OneMore(scores: seq<nat>, ps: seq<int>, p: int)
    requires InRange(ps, |scores|) && 0 <= p < |scores|
    ensures InRange(ps + [p], |scores|)
    ensures Total(scores, ps + [p]) == Total(scores, ps) + scores[p]
    ensures Highest(scores, ps + [p]) == Max(Highest(scores, ps), scores[p])
  {
    assert (ps + [p])[..|ps|] == ps;
  }

  /** The match the game thread is in; m when it is over. */
  function Match(s: State): nat { if s.game.Over? then s.m else s.game.i }

  /** Who has batted in the current match. */
  function Batting(s: State): seq<int>
    requires 2 * SIDE * Match(s) <= |s.order|
  {
    s.order[2 * SIDE * Match(s)..]
  }

  function First(ps: seq<int>): seq<int> { if |ps| <= SIDE then ps else ps[..SIDE] }

  function Second(ps: seq<int>): seq<int> { if |ps| <= SIDE then [] else ps[SIDE..] }

  /** The summary that 22 players should give. */
  function Expected(scores: seq<nat>, ps: seq<int>): Summary
    requires InRange(ps, |scores|)
  {
    Summary(|First(ps)|, |Second(ps)|, Total(scores, First(ps)), Total(scores, Second(ps)), Highest(scores, ps))
  }

  // ------------------------------------------------------------ invariant

  predicate Inside(phase: Phase) { phase in {Entered, Batted, Scored} }

  /** Who holds the token: a player, or nobody when it is elsewhere. */
  ghost predicate TokenAt(s: State, p: int) {
    && (p == NOONE || (0 <= p < |s.players| && Inside(s.players[p])))
    && (forall q :: 0 <= q < |s.players| && Inside(s.players[q]) ==> q == p)
    && s.canModify in {0, 1} && s.matchDone in {0, 1}
    && s.canModify + s.matchDone + (if p == NOONE then 0 else 1) + (if s.game.Awaits? then 0 else 1) == 1
  }

  /** Exactly the players that have batted are listed, each once. */
  ghost predicate OrderOk(s: State) {
    && InRange(s.order, |s.players|)
    && (forall j, k :: 0 <= j < k < |s.order| ==> s.order[j] != s.order[k])
    && (forall p :: 0 <= p < |s.players| ==> (p in s.order <==> s.players[p] in {Batted, Scored, Done}))
  }

  /** The shared counters are those of the current match. */
  ghost predicate CountsOk(s: State, p: int)
    requires InRange(s.order, |s.scores|)
  {
    && 2 * SIDE * Match(s) <= |s.order| <= 2 * SIDE * Match(s) + 2 * SIDE
    && var ps := Batting(s);
       var e := Expected(s.scores, ps);
       && s.capitals == e.capitals && s.titans == e.titans
       && s.capitalsRuns == e.capitalsRuns && s.titansRuns == e.titansRuns
       && (if Is(s, p, Batted) then ps != [] && ps[|ps| - 1] == p && s.best == Highest(s.scores, ps[..|ps| - 1])
           else s.best == e.best)
       && (Is(s, p, Scored) ==> ps != [] && ps[|ps| - 1] == p)
       && (s.matchDone == 1 || s.game.Sums? ==> |ps| == 2 * SIDE)
       && (s.canModify == 1 || Is(s, p, Entered) ==> |ps| < 2 * SIDE)
       && (s.game.Ready? || s.game.Over? ==> ps == [])
  }

  /** The players of match j, in order. */
  function Played(s: State, j: int): seq<int>
    requires 0 <= j && 2 * SIDE * j + 2 * SIDE <= |s.order|
  {
    s.order[2 * SIDE * j..2 * SIDE * j + 2 * SIDE]
  }

  predicate SummaryOk(s: State, j: int)
    requires InRange(s.order, |s.scores|)
  {
    && 0 <= j < |s.summaries| && 2 * SIDE * j + 2 * SIDE <= |s.order|
    && InRange(Played(s, j), |s.scores|) && s.summaries[j] == Expected(s.scores, Played(s, j))
  }

  ghost predicate Inv(s: State, p: int) {
    && |s.scores| == |s.players| == 2 * SIDE * s.m
    && (s.game.Over? || s.game.i < s.m) && |s.summaries| == Match(s)
    && TokenAt(s, p) && OrderOk(s) && CountsOk(s, p)
    && (forall j {:trigger SummaryOk(s, j)} :: 0 <= j < Match(s) ==> SummaryOk(s, j))
    && s.bestOverall == Highest(s.scores, s.order[..2 * SIDE * Match(s)]) && s.bestTeam == TopTeam(s.summaries)
  }

  lemma InitInv(m: nat, scores: seq<nat>)
    requires |scores| == 2 * SIDE * m
    ensures Inv(Init(m, scores), NOONE)
  {
    var s := Init(m, scores);
    assert s.order[..0] == [];
  }

  lemma {:induction false} HighestJoin(scores: seq<nat>, a: seq<int>, b: seq<int>)
    requires InRange(a, |scores|) && InRange(b, |scores|)
    ensures InRange(a + b, |scores|)
    ensures Highest(scores, a + b) == Max(Highest(scores, a), Highest(scores, b))
  {
    if b == [] {
      assert a + b == a;
      HighestIsNat(scores, a);
    } else {
      var c := b[..|b| - 1];
      HighestJoin(scores, a, c);
      assert (a + b)[..|a + b| - 1] == a + c;
    }
  }

  lemma {:induction false} HighestIsNat(scores: seq<nat>, a: seq<int>)
    requires InRange(a, |scores|)
    ensures Highest(scores, a) >= 0
  {
    if a != [] {
      HighestIsNat(scores, a[..|a| - 1]);
    }
  }

  // ---------------------------------------------------------------- steps

  /** The holder after a step. */
  function Holder(p: int, step: Step): int {
    match step
    case Enter(q) => q
    case Leave(_) => NOONE
    case _ => p
  }

  lemma {:induction false} TokenStep(s: State, p: int, step: Step)
    requires TokenAt(s, p) && May(s, step)
    ensures TokenAt(Do(s, step), Holder(p, step))
    ensures step.Enter? ==> p == NOONE && s.canModify == 1 && s.matchDone == 0 && s.game.Awaits?
    ensures step.Bat? || step.Best? || step.Leave? ==>
              step.p == p && s.canModify == 0 && s.matchDone == 0 && s.game.Awaits?
    ensures step.Take? ==> s.matchDone == 1
    ensures step.Post? || step.Sum? || step.Take? ==> p == NOONE && s.canModify == 0
  {
  }

  lemma {:induction false} OrderStep(s: State, step: Step)
    requires OrderOk(s) && May(s, step)
    ensures OrderOk(Do(s, step))
  {
    if step.Bat? {
      assert step.p !in s.order;
    }
  }

  /** One player more has batted in this match. */
  lemma {:induction false} ExpectedMore(scores: seq<nat>, ps: seq<int>, p: int)
    requires InRange(ps, |scores|) && 0 <= p < |scores| && |ps| < 2 * SIDE
    ensures InRange(ps + [p], |scores|)
    ensures var e, f := Expected(scores, ps), Expected(scores, ps + [p]);
            if |ps| < SIDE then f == e.(capitals := e.capitals + 1, capitalsRuns := e.capitalsRuns + scores[p],
                                        best := Max(e.best, scores[p]))
            else f == e.(titans := e.titans + 1, titansRuns := e.titansRuns + scores[p], best := Max(e.best, scores[p]))
  {
    OneMore(scores, ps, p);
    if |ps| < SIDE {
      assert First(ps + [p]) == First(ps) + [p];
      OneMore(scores, First(ps), p);
    } else {
      assert First(ps + [p]) == First(ps) && Second(ps + [p]) == Second(ps) + [p];
      OneMore(scores, Second(ps), p);
    }
  }

  /** The counters tell how many have batted. */
  lemma {:induction false} Counters(scores: seq<nat>, ps: seq<int>)
    requires InRange(ps, |scores|) && |ps| <= 2 * SIDE
    ensures var e := Expected(scores, ps);
            (e.capitals < SIDE <==> |ps| < SIDE) && (e.capitals == SIDE && e.titans == SIDE <==> |ps| == 2 * SIDE)
  {
  }

  lemma {:induction false} BatCounts(s: State, p: int)
    requires Inv(s, p) && May(s, Bat(p))
    ensures CountsOk(Do(s, Bat(p)), p)
  {
    hide Expected, TokenAt, SummaryOk, OrderOk;
    var t, ps := Do(s, Bat(p)), Batting(s);
    Sizes(s, p);
    assert t.order[2 * SIDE * Match(s)..] == ps + [p];
    assert (ps + [p])[..|ps|] == ps;
    Counters(s.scores, ps);
    ExpectedMore(s.scores, ps, p);
    ExpectedBest(s.scores, ps);
    TokenStep(s, p, Bat(p));
  }

  lemma ExpectedBest(scores: seq<nat>, ps: seq<int>)
    requires InRange(ps, |scores|)
    ensures Expected(scores, ps).best == Highest(scores, ps)
  {
  }

  lemma Sizes(s: State, p: int)
    requires Inv(s, p)
    ensures InRange(s.order, |s.scores|) && InRange(Batting(s), |s.scores|)
  {
  }

  lemma {:induction false} BestCounts(s: State, p: int)
    requires Inv(s, p) && May(s, Best(p))
    ensures CountsOk(Do(s, Best(p)), p)
  {
    hide Expected, SummaryOk, OrderOk, TokenAt;
    Sizes(s, p);
    var ps := Batting(s);
    assert ps == ps[..|ps| - 1] + [p];
    OneMore(s.scores, ps[..|ps| - 1], p);
    ExpectedBest(s.scores, ps);
    TokenStep(s, p, Best(p));
  }

  lemma {:induction false} LeaveCounts(s: State, p: int)
    requires Inv(s, p) && May(s, Leave(p))
    ensures CountsOk(Do(s, Leave(p)), NOONE)
  {
    hide Expected, SummaryOk, OrderOk, TokenAt;
    Sizes(s, p);
    Counters(s.scores, Batting(s));
    TokenStep(s, p, Leave(p));
  }

  lemma {:induction false} OtherCounts(s: State, p: int, step: Step)
    requires Inv(s, p) && May(s, step) && (step.Enter? || step.Post? || step.Take?)
    ensures CountsOk(Do(s, step), Holder(p, step))
  {
    hide Expected, SummaryOk, OrderOk, TokenAt;
    Sizes(s, p);
    TokenStep(s, p, step);
  }

  lemma ExpectedNone(scores: seq<nat>)
    ensures InRange([], |scores|) && Expected(scores, []) == Summary(0, 0, 0, 0, 0)
  {
  }

  /** The summary is taken when exactly this match's 22 players have batted. */
  lemma {:induction false} SumFacts(s: State, p: int)
    requires Inv(s, p) && May(s, Sum)
    ensures p == NOONE && s.canModify == 0 && s.matchDone == 0 && Match(s) < s.m
    ensures InRange(s.order, |s.scores|) && |s.order| == 2 * SIDE * (Match(s) + 1) && Batting(s) == Played(s, Match(s))
    ensures InRange(Batting(s), |s.scores|)
    ensures Summary(s.capitals, s.titans, s.capitalsRuns, s.titansRuns, s.best) == Expected(s.scores, Batting(s))
    ensures Match(Do(s, Sum)) == Match(s) + 1
  {
    hide SummaryOk, OrderOk, TokenAt, Total, Highest, First, Second;
    Sizes(s, p);
    TokenStep(s, p, Sum);
    SumToken(s, p);
  }

  lemma SumToken(s: State, p: int)
    requires TokenAt(s, p) && s.game.Sums?
    ensures p == NOONE && s.canModify == 0 && s.matchDone == 0
  {
  }

  lemma {:induction false} SumCounts(s: State, p: int)
    requires Inv(s, p) && May(s, Sum)
    ensures CountsOk(Do(s, Sum), p)
  {
    hide SummaryOk, OrderOk, TokenAt, Expected;
    SumFacts(s, p);
    ExpectedNone(s.scores);
    ExpectedBest(s.scores, []);
    var t := Do(s, Sum);
    assert t.order[2 * SIDE * Match(t)..] == [];
  }

  lemma {:induction false} CountsStep(s: State, p: int, step: Step)
    requires Inv(s, p) && May(s, step)
    ensures CountsOk(Do(s, step), Holder(p, step))
  {
    hide CountsOk, Do, Inv;
    ThisHolder(s, p, step);
    match step
    case Bat(q) => BatCounts(s, q);
    case Best(q) => BestCounts(s, q);
    case Leave(q) => LeaveCounts(s, q);
    case Sum => SumCounts(s, p);
    case _ => OtherCounts(s, p, step);
  }

  lemma ThisHolder(s: State, p: int, step: Step)
    requires Inv(s, p) && May(s, step)
    ensures step.Bat? || step.Best? || step.Leave? ==> step.p == p
    ensures InRange(Do(s, step).order, |Do(s, step).scores|)
  {
    hide Expected, SummaryOk;
    TokenStep(s, p, step);
    OrderStep(s, step);
  }

  /** What the summaries say so far stays right. */
  lemma {:induction false} SummaryStep(s: State, p: int, step: Step)
    requires Inv(s, p) && May(s, step)
    ensures var t := Do(s, step);
            && InRange(t.order, |t.scores|) && |t.summaries| == Match(t) && 2 * SIDE * Match(t) <= |t.order|
            && (forall j {:trigger SummaryOk(t, j)} :: 0 <= j < Match(t) ==> SummaryOk(t, j))
            && t.bestOverall == Highest(t.scores, t.order[..2 * SIDE * Match(t)]) && t.bestTeam == TopTeam(t.summaries)
  {
    hide TokenAt, OrderOk, Expected;
    Sizes(s, p);
    ThisHolder(s, p, step);
    var t := Do(s, step);
    if step.Sum? {
      SumSummary(s, p);
    } else {
      assert t.order[..2 * SIDE * Match(t)] == s.order[..2 * SIDE * Match(s)];
      forall j | 0 <= j < Match(t)
        ensures SummaryOk(t, j)
      {
        assert SummaryOk(s, j) && Played(t, j) == Played(s, j);
      }
    }
  }

  lemma {:induction false} SumSummary(s: State, p: int)
    requires Inv(s, p) && May(s, Sum)
    ensures var t := Do(s, Sum);
            && |t.summaries| == Match(t) && 2 * SIDE * Match(t) <= |t.order| && InRange(t.order, |t.scores|)
            && (forall j {:trigger SummaryOk(t, j)} :: 0 <= j < Match(t) ==> SummaryOk(t, j))
            && t.bestOverall == Highest(t.scores, t.order[..2 * SIDE * Match(t)]) && t.bestTeam == TopTeam(t.summaries)
  {
    hide TokenAt, OrderOk, CountsOk, Expected, Highest;
    SumFacts(s, p);
    var t, i, ps := Do(s, Sum), Match(s), Batting(s);
    forall j | 0 <= j < i + 1
      ensures SummaryOk(t, j)
    {
      if j < i {
        assert SummaryOk(s, j);
      }
      assert Played(t, j) == Played(s, j);
    }
    HighestJoin(s.scores, s.order[..2 * SIDE * i], ps);
    ExpectedBest(s.scores, ps);
    assert s.order[..2 * SIDE * i] + ps == s.order[..2 * SIDE * (i + 1)];
    assert t.summaries[..i] == s.summaries;
  }

  lemma {:induction false} DoInv(s: State, p: int, step: Step)
    requires Inv(s, p) && May(s, step)
    ensures Inv(Do(s, step), Holder(p, step))
  {
    hide CountsOk, SummaryOk, OrderOk, TokenAt;
    TokenStep(s, p, step);
    OrderStep(s, step);
    CountsStep(s, p, step);
    SummaryStep(s, p, step);
  }

  // ----------------------------------------------------------------- runs

  ghost predicate Possible(s: State, steps: seq<Step>)
    decreases |steps|
  {
    steps == [] || (May(s, steps[0]) && Possible(Do(s, steps[0]), steps[1..]))
  }

  ghost function After(s: State, steps: seq<Step>): State
    requires Possible(s, steps)
    decreases |steps|
  {
    if steps == [] then s else After(Do(s, steps[0]), steps[1..])
  }

  ghost predicate Sound(s: State) { exists p :: Inv(s, p) }

  /** In every run exactly one token exists, and every summary is that of 11 + 11 players. */
  lemma {:induction false} RunSound(s: State, steps: seq<Step>)
    requires Sound(s) && Possible(s, steps)
    ensures Sound(After(s, steps)) && After(s, steps).m == s.m && After(s, steps).scores == s.scores
    decreases |steps|
  {
    hide Inv, Do, May;
    if steps != [] {
      var p :| Inv(s, p);
      DoInv(s, p, steps[0]);
      Fixed(s, steps[0]);
      RunSound(Do(s, steps[0]), steps[1..]);
    }
  }

  lemma Fixed(s: State, step: Step)
    requires May(s, step)
    ensures Do(s, step).m == s.m && Do(s, step).scores == s.scores
  {
  }

  /**
   Whatever the scheduling, summary j shows 11 players a side and the sums and the maximum of the scores
   of the 22 players that played match j; no player plays twice.
   */
  lemma {:induction false} SummariesRight(m: nat, scores: seq<nat>, steps: seq<Step>, j: nat)
    requires |scores| == 2 * SIDE * m && Possible(Init(m, scores), steps)
    requires j < |After(Init(m, scores), steps).summaries|
    ensures var t := After(Init(m, scores), steps);
            && t.scores == scores && InRange(t.order, |scores|) && SummaryOk(t, j)
            && t.summaries[j].capitals == t.summaries[j].titans == SIDE
            && forall i, k :: 0 <= i < k < |t.order| ==> t.order[i] != t.order[k]
  {
    hide Possible, After, Init, Total, Highest;
    InitInv(m, scores);
    assert Sound(Init(m, scores));
    RunSound(Init(m, scores), steps);
    InitFixed(m, scores);
    var t := After(Init(m, scores), steps);
    var p :| Inv(t, p);
    assert SummaryOk(t, j);
  }

  lemma InitFixed(m: nat, scores: seq<nat>)
    ensures Init(m, scores).m == m && Init(m, scores).scores == scores
  {
  }

  function InsideCount(players: seq<Phase>): nat {
    if players == [] then 0
    else InsideCount(players[..|players| - 1]) + if Inside(players[|players| - 1]) then 1 else 0
  }

  lemma {:induction false} InsideIs(players: seq<Phase>, p: int)
    requires forall q :: 0 <= q < |players| && Inside(players[q]) ==> q == p
    ensures InsideCount(players) == if 0 <= p < |players| && Inside(players[p]) then 1 else 0
  {
    if players != [] {
      InsideIs(players[..|players| - 1], p);
    }
  }

  /** In every run, exactly one token is on a semaphore, with a player, or with the game thread. */
  lemma {:induction false} OneToken(m: nat, scores: seq<nat>, steps: seq<Step>)
    requires |scores| == 2 * SIDE * m && Possible(Init(m, scores), steps)
    ensures var t := After(Init(m, scores), steps);
            && t.canModify >= 0 && t.matchDone >= 0
            && t.canModify + t.matchDone + InsideCount(t.players) + (if t.game.Awaits? then 0 else 1) == 1
  {
    hide Possible, After, Init, CountsOk, OrderOk, SummaryOk, Highest;
    InitInv(m, scores);
    assert Sound(Init(m, scores));
    RunSound(Init(m, scores), steps);
    var t := After(Init(m, scores), steps);
    var p :| Inv(t, p);
    InsideIs(t.players, p);
  }

  // ------------------------------------------------- progress and the end

  function Elements(ps: seq<int>): (r: set<int>)
  {
    set k | 0 <= k < |ps| :: ps[k]
  }

  lemma {:induction false} DistinctCount(ps: seq<int>)
    requires forall j, k :: 0 <= j < k < |ps| ==> ps[j] != ps[k]
    ensures |Elements(ps)| == |ps|
  {
    if ps != [] {
      var n := |ps| - 1;
      DistinctCount(ps[..n]);
      assert Elements(ps) == Elements(ps[..n]) + {ps[n]};
    }
  }

  function Below(n: nat): (r: set<int>)
    ensures |r| == n && forall p :: p in r <==> 0 <= p < n
  {
    if n == 0 then {} else Below(n - 1) + {n - 1}
  }

  /** If not all have batted, someone has not. */
  lemma {:induction false} SomeoneLeft(ps: seq<int>, n: nat) returns (p: int)
    requires InRange(ps, n) && |ps| < n && forall j, k :: 0 <= j < k < |ps| ==> ps[j] != ps[k]
    ensures 0 <= p < n && p !in ps
  {
    DistinctCount(ps);
    var rest := Below(n) - Elements(ps);
    if rest == {} {
      forall q | q in Below(n)
        ensures q in Elements(ps)
      {
        assert q !in rest;
      }
      Smaller(Below(n), Elements(ps));
      assert false;
    }
    forall k | 0 <= k < |ps|
      ensures ps[k] in Elements(ps)
    {
    }
    p :| p in rest;
  }

  lemma {:induction false} Smaller(a: set<int>, b: set<int>)
    requires forall x :: x in a ==> x in b
    ensures |a| <= |b|
  {
    forall x
      ensures x in b <==> x in a + (b - a)
    {
    }
    assert b == a + (b - a);
  }

  /** If as many have batted as there are players, everyone has. */
  lemma {:induction false} EveryoneIn(ps: seq<int>, n: nat, p: int)
    requires InRange(ps, n) && |ps| == n && 0 <= p < n && forall j, k :: 0 <= j < k < |ps| ==> ps[j] != ps[k]
    ensures p in ps
  {
    if p !in ps {
      var qs := ps + [p];
      DistinctCount(qs);
      forall q | q in Elements(qs)
        ensures q in Below(n)
      {
      }
      Smaller(Elements(qs), Below(n));
    }
  }

  /** All matches played and all players done: the joins return. */
  predicate Finished(s: State) {
    s.game.Over? && forall p :: 0 <= p < |s.players| ==> s.players[p] == Done
  }

  ghost predicate Stuck(s: State) { forall step :: !May(s, step) }

  /** No state of a run is deadlocked before the end. */
  lemma {:induction false} NoDeadlock(m: nat, scores: seq<nat>, steps: seq<Step>)
    requires |scores| == 2 * SIDE * m && Possible(Init(m, scores), steps)
    ensures var t := After(Init(m, scores), steps); Stuck(t) ==> Finished(t)
  {
    hide Possible, After, Init;
    InitInv(m, scores);
    assert Sound(Init(m, scores));
    RunSound(Init(m, scores), steps);
    var t := After(Init(m, scores), steps);
    var p :| Inv(t, p);
    if t.game.Over? {
      OverFinished(t, p);
    } else {
      NotStuck(t, p);
    }
  }

  lemma {:induction false} OverFinished(s: State, p: int)
    requires Inv(s, p) && s.game.Over?
    ensures Finished(s) && |s.order| == |s.players| && |s.summaries| == s.m
    ensures s.bestOverall == Highest(s.scores, s.order)
  {
    hide Highest, Total, SummaryOk;
    Sizes(s, p);
    assert s.order[..2 * SIDE * s.m] == s.order;
    forall q | 0 <= q < |s.players|
      ensures s.players[q] == Done
    {
      EveryoneIn(s.order, |s.players|, q);
    }
  }

  lemma {:induction false} NotStuck(s: State, p: int)
    requires Inv(s, p) && !s.game.Over?
    ensures !Stuck(s)
  {
    hide Highest, Total, SummaryOk, Expected;
    Sizes(s, p);
    if p != NOONE {
      var step := if s.players[p] == Entered then Bat(p) else if s.players[p] == Batted then Best(p) else Leave(p);
      assert May(s, step);
    } else if s.canModify == 1 {
      var q := SomeoneLeft(s.order, |s.players|);
      assert May(s, Enter(q));
    } else {
      assert May(s, Post) || May(s, Take) || May(s, Sum);
    }
  }
}
