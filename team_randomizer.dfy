/**
 * The skill-tiered snake-draft team randomiser (frontend/src/lib/teamRandomizer.js).
 *
 * Players are attendance records; a player's skill is `player?.user?.skill`.
 * `Math.random()` is replaced by injected swap choices: for a shuffle of `n`
 * elements, `choices[k]` is the index `j` (with `j <= i`) drawn when the loop
 * variable is `i = n - 1 - k`.
 */
module TeamRandomizer {
  import opened Wrappers
  import opened Seqs

  datatype User = User(name: string, skill: Option<int>)

  /** An attendance record as the session page receives it. */
  datatype Attendance = Attendance(id: int, status: string, user: Option<User>)

  /** `currPlayer?.user?.skill`: absent when there is no user or the user has no skill. */
  function Skill(p: Attendance): Option<int> {
    if p.user.Some? then p.user.value.skill else None
  }

  /** The tier (5 = strongest) the if-chain puts a skill level in; a missing skill fails every comparison. */
  function Tier(skill: Option<int>): (t: int)
    ensures 1 <= t <= 5
  {
    if skill.Some? && skill.value >= 8 then 5
    else if skill.Some? && skill.value >= 6 && skill.value < 8 then 4
    else if skill.Some? && skill.value >= 4 && skill.value < 6 then 3
    else if skill.Some? && skill.value >= 2 && skill.value < 4 then 2
    else 1
  }

  function PlayerTier(p: Attendance): int {
    Tier(Skill(p))
  }

  /** The tier thresholds as ranges, each an if-and-only-if. */
  lemma TierThresholds(skill: Option<int>)
    ensures Tier(skill) == 5 <==> skill.Some? && 8 <= skill.value
    ensures Tier(skill) == 4 <==> skill.Some? && 6 <= skill.value <= 7
    ensures Tier(skill) == 3 <==> skill.Some? && 4 <= skill.value <= 5
    ensures Tier(skill) == 2 <==> skill.Some? && 2 <= skill.value <= 3
    ensures Tier(skill) == 1 <==> skill.None? || skill.value < 2
  {
  }

  // ---- shuffleArray ----

  /** Choices a Fisher-Yates pass over `n` elements can draw: one per `i` from `n - 1` down to 1, each at most `i`. */
  predicate ValidChoices(choices: seq<nat>, n: nat) {
    && |choices| == (if n == 0 then 0 else n - 1)
    && forall k :: 0 <= k < |choices| ==> choices[k] <= n - 1 - k
  }

  function Swap<T>(s: seq<T>, i: nat, j: nat): (r: seq<T>)
    requires i < |s| && j < |s|
    ensures |r| == |s|
  {
    s[i := s[j]][j := s[i]]
  }

  lemma SwapPermutes<T>(s: seq<T>, i: nat, j: nat)
    requires i < |s| && j < |s|
    ensures multiset(Swap(s, i, j)) == multiset(s)
  {
  }

  /** The array after the loop iterations for `i`, `i - 1`, ..., 1 have run on `s`. */
  function ShuffleFrom<T>(s: seq<T>, choices: seq<nat>, i: nat): seq<T>
    requires i < |s| && ValidChoices(choices, |s|)
    decreases i
  {
    if i == 0 then s else ShuffleFrom(Swap(s, i, choices[|s| - 1 - i]), choices, i - 1)
  }

  /** The result of `shuffleArray(s)` when the draws are `choices`. */
  function FisherYates<T>(s: seq<T>, choices: seq<nat>): seq<T>
    requires ValidChoices(choices, |s|)
  {
    if |s| == 0 then s else ShuffleFrom(s, choices, |s| - 1)
  }

  lemma {:induction false} ShuffleFromPermutes<T>(s: seq<T>, choices: seq<nat>, i: nat)
    requires i < |s| && ValidChoices(choices, |s|)
    ensures |ShuffleFrom(s, choices, i)| == |s|
    ensures multiset(ShuffleFrom(s, choices, i)) == multiset(s)
    decreases i
  {
    if i > 0 {
      SwapPermutes(s, i, choices[|s| - 1 - i]);
      ShuffleFromPermutes(Swap(s, i, choices[|s| - 1 - i]), choices, i - 1);
    }
  }

  /** Whatever the draws, Fisher-Yates returns a permutation of its input. */
  lemma FisherYatesPermutes<T>(s: seq<T>, choices: seq<nat>)
    requires ValidChoices(choices, |s|)
    ensures |FisherYates(s, choices)| == |s|
    ensures multiset(FisherYates(s, choices)) == multiset(s)
  {
    if |s| > 0 {
      ShuffleFromPermutes(s, choices, |s| - 1);
    }
  }

  /**
   * `shuffleArray`: copies the input into a fresh array and swaps in place
   * from the last index down; the input is a value and cannot change.
   */
  method ShuffleArray<T>(input: seq<T>, choices: seq<nat>) returns (r: seq<T>)
    requires ValidChoices(choices, |input|)
    ensures r == FisherYates(input, choices)
    ensures |r| == |input| && multiset(r) == multiset(input)
  {
    var shuffled := new T[|input|](k requires 0 <= k < |input| => input[k]);
    assert shuffled[..] == input;
    SwapDown(shuffled, choices);
    r := shuffled[..];
    FisherYatesPermutes(input, choices);
  }

  /** The `for` loop of `shuffleArray`: swaps `shuffled[i]` with a drawn `shuffled[j]`, `i` from the end down to 1. */
  method SwapDown<T>(shuffled: array<T>, choices: seq<nat>)
    requires ValidChoices(choices, shuffled.Length)
    modifies shuffled
    ensures shuffled[..] == FisherYates(old(shuffled[..]), choices)
  {
    ghost var input := shuffled[..];
    var i := shuffled.Length - 1;
    while i > 0
      invariant 0 <= i + 1 <= shuffled.Length
      invariant i >= 0 ==> FisherYates(input, choices) == ShuffleFrom(shuffled[..], choices, i)
      invariant i < 0 ==> shuffled[..] == input == []
    {
      var j := choices[shuffled.Length - 1 - i];
      ghost var before := shuffled[..];
      ShuffleStep(input, choices, before, i);
      shuffled[i], shuffled[j] := shuffled[j], shuffled[i];
      assert shuffled[..] == Swap(before, i, j);
      i := i - 1;
    }
  }

  /** One swap of the loop takes the array from the state for `i` to the state for `i - 1`. */
  lemma ShuffleStep<T>(input: seq<T>, choices: seq<nat>, s: seq<T>, i: nat)
    requires 0 < i < |s| == |input| && ValidChoices(choices, |s|)
    requires FisherYates(input, choices) == ShuffleFrom(s, choices, i)
    ensures FisherYates(input, choices) == ShuffleFrom(Swap(s, i, choices[|s| - 1 - i]), choices, i - 1)
  {
  }

  // ---- randomizeTeams ----

  /** The players of tier `t`, in input order: what the tiering loop pushes into `tiers.tier<t>`. */
  function TierMembers(players: seq<Attendance>, t: int): seq<Attendance> {
    if players == [] then []
    else
      var last := players[|players| - 1];
      TierMembers(players[..|players| - 1], t) + (if PlayerTier(last) == t then [last] else [])
  }

  /** Each player lands in its own tier and in no other. */
  lemma {:induction false} TierMembersCount(players: seq<Attendance>, t: int, p: Attendance)
    ensures multiset(TierMembers(players, t))[p] == if PlayerTier(p) == t then multiset(players)[p] else 0
  {
    if players != [] {
      var init := players[..|players| - 1];
      TierMembersCount(init, t, p);
      assert players == init + [players[|players| - 1]];
    }
  }

  /** The tier shuffles' draws: `choices[k]` shuffles tier `5 - k`. */
  predicate ValidTierChoices(players: seq<Attendance>, choices: seq<seq<nat>>) {
    |choices| == 5 && forall k :: 0 <= k < 5 ==> ValidChoices(choices[k], |TierMembers(players, 5 - k)|)
  }

  /** `allTiers`: each tier shuffled, tier 5 first. */
  function ShuffledTiers(players: seq<Attendance>, choices: seq<seq<nat>>): (tiers: seq<seq<Attendance>>)
    requires ValidTierChoices(players, choices)
    ensures |tiers| == 5
    ensures forall k :: 0 <= k < 5 ==> tiers[k] == FisherYates(TierMembers(players, 5 - k), choices[k])
  {
    [FisherYates(TierMembers(players, 5), choices[0]),
     FisherYates(TierMembers(players, 4), choices[1]),
     FisherYates(TierMembers(players, 3), choices[2]),
     FisherYates(TierMembers(players, 2), choices[3]),
     FisherYates(TierMembers(players, 1), choices[4])]
  }

  /** The order in which players are dealt. */
  function DraftOrder(players: seq<Attendance>, choices: seq<seq<nat>>): seq<Attendance>
    requires ValidTierChoices(players, choices)
  {
    Flatten(ShuffledTiers(players, choices))
  }

  /** The team that the player with running index `playerIndex` goes to. */
  function SnakeTeam(playerIndex: nat, numOfTeams: nat): (t: nat)
    requires numOfTeams >= 1
    ensures t < numOfTeams
  {
    var round := Round(playerIndex, numOfTeams);
    var positionInRound := Position(playerIndex, numOfTeams);
    if round % 2 == 0 then positionInRound else numOfTeams - 1 - positionInRound
  }

  /** The round of the running index, `Math.floor(playerIndex / numOfTeams)`, counted by whole rounds. */
  function Round(playerIndex: nat, numOfTeams: nat): nat
    requires numOfTeams >= 1
  {
    if playerIndex < numOfTeams then 0 else 1 + Round(playerIndex - numOfTeams, numOfTeams)
  }

  /** The place of the running index within its round, `playerIndex % numOfTeams`. */
  function Position(playerIndex: nat, numOfTeams: nat): (p: nat)
    requires numOfTeams >= 1
    ensures p < numOfTeams
  {
    if playerIndex < numOfTeams then playerIndex else Position(playerIndex - numOfTeams, numOfTeams)
  }

  /** The teams after the players of `order` have been pushed one by one to their snake teams. */
  function Deal(order: seq<Attendance>, numOfTeams: nat): (teams: seq<seq<Attendance>>)
    requires numOfTeams >= 1
    ensures |teams| == numOfTeams
  {
    if order == [] then seq(numOfTeams, _ => [])
    else
      var teams := Deal(order[..|order| - 1], numOfTeams);
      var t := SnakeTeam(|order| - 1, numOfTeams);
      teams[t := teams[t] + [order[|order| - 1]]]
  }

  const TeamCountError: string := "Number of teams must be at least 2"

  /** What `randomizeTeams(players, numOfTeams)` returns or throws, given the shuffle draws. */
  function RandomizedTeams(players: seq<Attendance>, numOfTeams: int, choices: seq<seq<nat>>): Result<seq<seq<Attendance>>, string>
    requires ValidTierChoices(players, choices)
  {
    if numOfTeams < 2 then Err(TeamCountError)
    else Ok(Deal(DraftOrder(players, choices), numOfTeams))
  }

  /** Players are dealt strongest tier first: along `s`, tiers never go up. */
  predicate TierNonIncreasing(s: seq<Attendance>) {
    forall i, j :: 0 <= i < j < |s| ==> PlayerTier(s[i]) >= PlayerTier(s[j])
  }

  /** How many players of `m` dealt to `n` teams team `t` receives. */
  function SnakeShare(m: nat, n: nat, t: nat): nat
    requires n >= 1
  {
    var rounds := Round(m, n);
    var rest := Position(m, n);
    rounds + (if (rounds % 2 == 0 && t < rest) || (rounds % 2 == 1 && n - rest <= t) then 1 else 0)
  }

  /** What `randomizeTeams` promises of a successful result. */
  predicate GoodTeams(players: seq<Attendance>, numOfTeams: int, teams: seq<seq<Attendance>>) {
    && |teams| == numOfTeams
    && multiset(Flatten(teams)) == multiset(players)
    && (forall t1, t2 :: 0 <= t1 < |teams| && 0 <= t2 < |teams| ==> |teams[t1]| <= |teams[t2]| + 1)
    && (forall t :: 0 <= t < |teams| ==> TierNonIncreasing(teams[t]))
  }

  /**
   * `randomizeTeams`: throws when fewer than 2 teams are asked for; otherwise
   * tiers the players, shuffles each tier and deals them in snake order.
   */
  method RandomizeTeams(players: seq<Attendance>, numOfTeams: int, choices: seq<seq<nat>>)
    returns (r: Result<seq<seq<Attendance>>, string>)
    requires ValidTierChoices(players, choices)
    ensures r == RandomizedTeams(players, numOfTeams, choices)
    ensures r.Err? <==> numOfTeams < 2
    ensures r.Ok? ==> GoodTeams(players, numOfTeams, r.value)
  {
    if numOfTeams < 2 {
      return Err(TeamCountError);
    }

    var teams := new seq<Attendance>[numOfTeams](_ => []);
    EmptyTeamsDeal(teams[..], numOfTeams);
    var allTiers := TierAndShuffle(players, choices);
    SnakeDeal(teams, allTiers);
    r := Ok(teams[..]);
    RandomizedTeamsGood(players, numOfTeams, choices);
  }

  /** The tiering loop and the five `shuffleArray` calls of `randomizeTeams`, strongest tier first. */
  method TierAndShuffle(players: seq<Attendance>, choices: seq<seq<nat>>) returns (allTiers: seq<seq<Attendance>>)
    requires ValidTierChoices(players, choices)
    ensures allTiers == ShuffledTiers(players, choices)
  {
    var tier5, tier4, tier3, tier2, tier1 := SortIntoTiers(players);
    var s5 := ShuffleArray(tier5, choices[0]);
    var s4 := ShuffleArray(tier4, choices[1]);
    var s3 := ShuffleArray(tier3, choices[2]);
    var s2 := ShuffleArray(tier2, choices[3]);
    var s1 := ShuffleArray(tier1, choices[4]);
    allTiers := [s5, s4, s3, s2, s1];
  }

  /** The tiering loop of `randomizeTeams`: each player is pushed onto the tier its skill selects. */
  method SortIntoTiers(players: seq<Attendance>)
    returns (tier5: seq<Attendance>, tier4: seq<Attendance>, tier3: seq<Attendance>,
             tier2: seq<Attendance>, tier1: seq<Attendance>)
    ensures tier5 == TierMembers(players, 5) && tier4 == TierMembers(players, 4)
    ensures tier3 == TierMembers(players, 3) && tier2 == TierMembers(players, 2)
    ensures tier1 == TierMembers(players, 1)
  {
    tier5, tier4, tier3, tier2, tier1 := [], [], [], [], [];
    for i := 0 to |players|
      invariant tier5 == TierMembers(players[..i], 5) && tier4 == TierMembers(players[..i], 4)
      invariant tier3 == TierMembers(players[..i], 3) && tier2 == TierMembers(players[..i], 2)
      invariant tier1 == TierMembers(players[..i], 1)
    {
      var currPlayer := players[i];
      var skillLevel := Skill(currPlayer);
      TierMembersNext(players, i);
      if skillLevel.Some? && skillLevel.value >= 8 {
        tier5 := tier5 + [currPlayer];
      } else if skillLevel.Some? && skillLevel.value >= 6 && skillLevel.value < 8 {
        tier4 := tier4 + [currPlayer];
      } else if skillLevel.Some? && skillLevel.value >= 4 && skillLevel.value < 6 {
        tier3 := tier3 + [currPlayer];
      } else if skillLevel.Some? && skillLevel.value >= 2 && skillLevel.value < 4 {
        tier2 := tier2 + [currPlayer];
      } else {
        tier1 := tier1 + [currPlayer];
      }
    }
    assert players[..|players|] == players;
  }

  /**
   * The dealing loop of `randomizeTeams`: a running player index over all
   * tiers picks each player's team, and the player is pushed onto it.
   */
  method SnakeDeal(teams: array<seq<Attendance>>, allTiers: seq<seq<Attendance>>)
    requires teams.Length >= 1 && teams[..] == Deal([], teams.Length)
    modifies teams
    ensures teams[..] == Deal(Flatten(allTiers), teams.Length)
  {
    var numOfTeams := teams.Length;
    var playerIndex := 0;
    ghost var dealt: seq<Attendance> := [];
    for k := 0 to |allTiers|
      invariant dealt == Flatten(allTiers[..k]) && playerIndex == |dealt|
      invariant teams[..] == Deal(dealt, numOfTeams)
    {
      var tier := allTiers[k];
      assert dealt + tier[..0] == dealt;
      for j := 0 to |tier|
        invariant playerIndex == |dealt| + j
        invariant teams[..] == Deal(dealt + tier[..j], numOfTeams)
      {
        var player := tier[j];
        var round := playerIndex / numOfTeams;
        var positionInRound := playerIndex % numOfTeams;
        var teamIndex;
        if round % 2 == 0 {
          teamIndex := positionInRound;
        } else {
          teamIndex := numOfTeams - 1 - positionInRound;
        }
        ghost var before := teams[..];
        RoundIsDivision(playerIndex, numOfTeams);
        DealNext(dealt, tier, j, numOfTeams, before, playerIndex, teamIndex);
        teams[teamIndex] := teams[teamIndex] + [player];
        assert teams[..] == before[teamIndex := before[teamIndex] + [player]];
        playerIndex := playerIndex + 1;
      }
      assert tier[..|tier|] == tier;
      FlattenNext(allTiers, k);
      dealt := dealt + tier;
    }
    assert allTiers[..|allTiers|] == allTiers;
  }

  lemma EmptyTeamsDeal(teams: seq<seq<Attendance>>, numOfTeams: nat)
    requires numOfTeams >= 1 && |teams| == numOfTeams && forall t :: 0 <= t < |teams| ==> teams[t] == []
    ensures teams == Deal([], numOfTeams)
  {
  }

  /** One more iteration of the tiering loop appends the player to its own tier only. */
  lemma TierMembersNext(players: seq<Attendance>, i: nat)
    requires i < |players|
    ensures forall t :: (TierMembers(players[..i + 1], t)
      == TierMembers(players[..i], t) + (if PlayerTier(players[i]) == t then [players[i]] else []))
  {
    assert players[..i + 1][..i] == players[..i];
  }

  /** One more iteration of the dealing loop pushes the player onto its snake team. */
  lemma DealNext(dealt: seq<Attendance>, tier: seq<Attendance>, j: nat, numOfTeams: nat,
                 before: seq<seq<Attendance>>, index: nat, t: nat)
    requires j < |tier| && numOfTeams >= 1 && index == |dealt| + j
    requires before == Deal(dealt + tier[..j], numOfTeams) && t == SnakeTeam(index, numOfTeams)
    ensures Deal(dealt + tier[..j + 1], numOfTeams) == before[t := before[t] + [tier[j]]]
  {
    var init := dealt + tier[..j];
    SliceSnoc(dealt, tier, j);
    assert |init| == index;
    DealSnoc(init, tier[j], numOfTeams);
    assert Deal(init + [tier[j]], numOfTeams) == before[t := before[t] + [tier[j]]];
  }

  lemma SliceSnoc(dealt: seq<Attendance>, tier: seq<Attendance>, j: nat)
    requires j < |tier|
    ensures dealt + tier[..j + 1] == (dealt + tier[..j]) + [tier[j]]
  {
    assert tier[..j + 1] == tier[..j] + [tier[j]];
  }

  /** Dealing one more player pushes it onto the snake team of its position. */
  lemma DealSnoc(init: seq<Attendance>, p: Attendance, numOfTeams: nat)
    requires numOfTeams >= 1
    ensures Deal(init + [p], numOfTeams)
      == Deal(init, numOfTeams)[SnakeTeam(|init|, numOfTeams) := Deal(init, numOfTeams)[SnakeTeam(|init|, numOfTeams)] + [p]]
  {
    assert (init + [p])[..|init|] == init;
  }

  // ---- what the deal guarantees ----

  lemma RandomizedTeamsGood(players: seq<Attendance>, numOfTeams: int, choices: seq<seq<nat>>)
    requires ValidTierChoices(players, choices) && numOfTeams >= 2
    ensures GoodTeams(players, numOfTeams, RandomizedTeams(players, numOfTeams, choices).value)
  {
    var order := DraftOrder(players, choices);
    var teams := Deal(order, numOfTeams);
    DraftOrderPermutes(players, choices);
    DealPermutes(order, numOfTeams);
    DealSizes(order, numOfTeams);
    SnakeShareBalanced(|order|, numOfTeams);
    DraftOrderTierSorted(players, choices);
    DealKeepsTierOrder(order, numOfTeams);
  }

  lemma {:induction false} FlattenUpdate<T>(lists: seq<seq<T>>, t: nat, x: T)
    requires t < |lists|
    ensures multiset(Flatten(lists[t := lists[t] + [x]])) == multiset(Flatten(lists)) + multiset{x}
  {
    var updated := lists[t := lists[t] + [x]];
    var n := |lists|;
    if t == n - 1 {
      assert updated[..n - 1] == lists[..n - 1];
    } else {
      FlattenUpdate(lists[..n - 1], t, x);
      assert updated[..n - 1] == lists[..n - 1][t := lists[t] + [x]];
    }
  }

  /** The teams together hold every dealt player exactly once. */
  lemma {:induction false} DealPermutes(order: seq<Attendance>, numOfTeams: nat)
    requires numOfTeams >= 1
    ensures multiset(Flatten(Deal(order, numOfTeams))) == multiset(order)
  {
    if order == [] {
      EmptyTeamsFlatten(numOfTeams);
    } else {
      var init := order[..|order| - 1];
      var last := order[|order| - 1];
      assert order == init + [last];
      DealPermutes(init, numOfTeams);
      DealSnoc(init, last, numOfTeams);
      FlattenUpdate(Deal(init, numOfTeams), SnakeTeam(|init|, numOfTeams), last);
    }
  }

  lemma {:induction false} EmptyTeamsFlatten(n: nat)
    ensures Flatten<Attendance>(seq(n, _ => [])) == []
  {
    if n > 0 {
      EmptyTeamsFlatten(n - 1);
      var empty: seq<seq<Attendance>> := seq(n, _ => []);
      assert empty[..n - 1] == seq(n - 1, _ => []);
    }
  }

  /** One more player moves the running index one place along its round. */
  lemma {:induction false} RoundStep(m: nat, n: nat)
    requires n >= 1
    ensures Position(m, n) + 1 < n ==> Round(m + 1, n) == Round(m, n) && Position(m + 1, n) == Position(m, n) + 1
    ensures Position(m, n) + 1 == n ==> Round(m + 1, n) == Round(m, n) + 1 && Position(m + 1, n) == 0
  {
    if m >= n {
      RoundStep(m - n, n);
    } else if m + 1 == n {
      assert Round(m + 1, n) == 1 + Round(0, n);
    }
  }

  /** Round and place rebuild the running index. */
  lemma {:induction false} RoundRebuild(m: nat, n: nat)
    requires n >= 1
    ensures m == Round(m, n) * n + Position(m, n)
  {
    if m >= n {
      RoundRebuild(m - n, n);
      assert Round(m, n) * n == n + Round(m - n, n) * n;
    }
  }

  /** Round and place are the quotient and remainder of the source's `/` and `%`. */
  lemma RoundIsDivision(m: nat, n: nat)
    requires n >= 1
    ensures Round(m, n) == m / n && Position(m, n) == m % n
  {
    RoundRebuild(m, n);
    DivModUnique(m, n, Round(m, n), Position(m, n));
  }

  /** Quotient and remainder are the only pair that rebuilds the dividend. */
  lemma DivModUnique(a: nat, n: nat, q: int, r: int)
    requires n >= 1 && 0 <= r < n && a == q * n + r
    ensures a / n == q && a % n == r
  {
    var q', r' := a / n, a % n;
    assert (q - q') * n == r' - r;
    if q - q' >= 1 {
      MulAtLeast(q - q', n);
    } else if q - q' <= -1 {
      MulAtLeast(q' - q, n);
    }
  }

  lemma MulAtLeast(k: int, n: nat)
    requires k >= 1
    ensures k * n >= n
  {
  }

  lemma SnakeShareStep(m: nat, n: nat, t: nat)
    requires n >= 1 && t < n
    ensures SnakeShare(m + 1, n, t) == SnakeShare(m, n, t) + (if t == SnakeTeam(m, n) then 1 else 0)
  {
    RoundStep(m, n);
  }

  /** Team `t` of the deal holds exactly its snake share of the players. */
  lemma {:induction false} DealSizes(order: seq<Attendance>, numOfTeams: nat)
    requires numOfTeams >= 1
    ensures forall t :: 0 <= t < numOfTeams ==> |Deal(order, numOfTeams)[t]| == SnakeShare(|order|, numOfTeams, t)
  {
    if order != [] {
      var init := order[..|order| - 1];
      DealSizes(init, numOfTeams);
      forall t | 0 <= t < numOfTeams
        ensures |Deal(order, numOfTeams)[t]| == SnakeShare(|order|, numOfTeams, t)
      {
        SnakeShareStep(|init|, numOfTeams, t);
      }
    }
  }

  /** Snake shares differ by at most one. */
  lemma SnakeShareBalanced(m: nat, n: nat)
    requires n >= 1
    ensures forall t1, t2 :: 0 <= t1 < n && 0 <= t2 < n ==> SnakeShare(m, n, t1) <= SnakeShare(m, n, t2) + 1
  {
  }

  /** Every member of a dealt team comes from the deal order. */
  lemma {:induction false} DealMembers(order: seq<Attendance>, numOfTeams: nat)
    requires numOfTeams >= 1
    ensures forall t, p :: 0 <= t < numOfTeams && p in Deal(order, numOfTeams)[t] ==> p in order
  {
    if order != [] {
      var init := order[..|order| - 1];
      DealMembers(init, numOfTeams);
      assert forall p :: p in init ==> p in order;
    }
  }

  lemma AppendLowest(s: seq<Attendance>, x: Attendance)
    requires TierNonIncreasing(s)
    requires forall p :: p in s ==> PlayerTier(p) >= PlayerTier(x)
    ensures TierNonIncreasing(s + [x])
  {
    var all := s + [x];
    forall i, j | 0 <= i < j < |all| ensures PlayerTier(all[i]) >= PlayerTier(all[j]) {
      if j < |s| {
        assert all[i] == s[i] && all[j] == s[j];
      } else {
        assert all[i] in s;
      }
    }
  }

  /** The last player of a tier-sorted order has the lowest tier of all. */
  lemma LastIsLowest(order: seq<Attendance>)
    requires order != [] && TierNonIncreasing(order)
    ensures forall p :: p in order[..|order| - 1] ==> PlayerTier(p) >= PlayerTier(order[|order| - 1])
  {
    var init := order[..|order| - 1];
    forall p | p in init ensures PlayerTier(p) >= PlayerTier(order[|order| - 1]) {
      var i :| 0 <= i < |init| && init[i] == p;
      assert order[i] == p;
    }
  }

  /** Dealing a tier-sorted order keeps every team tier-sorted. */
  lemma {:induction false} DealKeepsTierOrder(order: seq<Attendance>, numOfTeams: nat)
    requires numOfTeams >= 1 && TierNonIncreasing(order)
    ensures forall t :: 0 <= t < numOfTeams ==> TierNonIncreasing(Deal(order, numOfTeams)[t])
  {
    if order != [] {
      var init := order[..|order| - 1];
      var last := order[|order| - 1];
      assert TierNonIncreasing(init) by {
        forall i, j | 0 <= i < j < |init| ensures PlayerTier(init[i]) >= PlayerTier(init[j]) {
          assert init[i] == order[i] && init[j] == order[j];
        }
      }
      DealKeepsTierOrder(init, numOfTeams);
      DealMembers(init, numOfTeams);
      LastIsLowest(order);
      var before := Deal(init, numOfTeams);
      var s := SnakeTeam(|order| - 1, numOfTeams);
      AppendLowest(before[s], last);
      assert Deal(order, numOfTeams) == before[s := before[s] + [last]];
    }
  }

  /** The five tiers' multiplicities add up to the players'. */
  lemma TierCountsSum(players: seq<Attendance>, p: Attendance)
    ensures multiset(TierMembers(players, 5))[p] + multiset(TierMembers(players, 4))[p]
      + multiset(TierMembers(players, 3))[p] + multiset(TierMembers(players, 2))[p]
      + multiset(TierMembers(players, 1))[p] == multiset(players)[p]
  {
    TierMembersCount(players, 5, p);
    TierMembersCount(players, 4, p);
    TierMembersCount(players, 3, p);
    TierMembersCount(players, 2, p);
    TierMembersCount(players, 1, p);
  }

  lemma FlattenFive<T>(tiers: seq<seq<T>>)
    requires |tiers| == 5
    ensures Flatten(tiers) == tiers[0] + tiers[1] + tiers[2] + tiers[3] + tiers[4]
  {
    assert tiers[..5] == tiers;
    assert tiers[..0] == [];
    FlattenNext(tiers, 0);
    var f1 := Flatten(tiers[..1]);
    assert f1 == tiers[0];
    FlattenNext(tiers, 1);
    var f2 := Flatten(tiers[..2]);
    assert f2 == f1 + tiers[1];
    FlattenNext(tiers, 2);
    var f3 := Flatten(tiers[..3]);
    assert f3 == f2 + tiers[2];
    FlattenNext(tiers, 3);
    var f4 := Flatten(tiers[..4]);
    assert f4 == f3 + tiers[3];
    FlattenNext(tiers, 4);
    assert Flatten(tiers) == f4 + tiers[4];
  }

  /** The deal order holds every player exactly once. */
  lemma DraftOrderPermutes(players: seq<Attendance>, choices: seq<seq<nat>>)
    requires ValidTierChoices(players, choices)
    ensures multiset(DraftOrder(players, choices)) == multiset(players)
  {
    var tiers := ShuffledTiers(players, choices);
    FlattenFive(tiers);
    ShuffledTiersPermute(players, choices);
    TiersMultiset(players);
  }

  /** Each shuffled tier is a permutation of that tier's members. */
  lemma ShuffledTiersPermute(players: seq<Attendance>, choices: seq<seq<nat>>)
    requires ValidTierChoices(players, choices)
    ensures var tiers := ShuffledTiers(players, choices);
      multiset(tiers[0] + tiers[1] + tiers[2] + tiers[3] + tiers[4])
        == multiset(TierMembers(players, 5)) + multiset(TierMembers(players, 4))
           + multiset(TierMembers(players, 3)) + multiset(TierMembers(players, 2))
           + multiset(TierMembers(players, 1))
  {
    FisherYatesPermutes(TierMembers(players, 5), choices[0]);
    FisherYatesPermutes(TierMembers(players, 4), choices[1]);
    FisherYatesPermutes(TierMembers(players, 3), choices[2]);
    FisherYatesPermutes(TierMembers(players, 2), choices[3]);
    FisherYatesPermutes(TierMembers(players, 1), choices[4]);
  }

  /** The five tiers together hold the players. */
  lemma TiersMultiset(players: seq<Attendance>)
    ensures multiset(TierMembers(players, 5)) + multiset(TierMembers(players, 4))
      + multiset(TierMembers(players, 3)) + multiset(TierMembers(players, 2))
      + multiset(TierMembers(players, 1)) == multiset(players)
  {
    forall p ensures (multiset(TierMembers(players, 5)) + multiset(TierMembers(players, 4))
      + multiset(TierMembers(players, 3)) + multiset(TierMembers(players, 2))
      + multiset(TierMembers(players, 1)))[p] == multiset(players)[p] {
      TierCountsSum(players, p);
    }
  }

  lemma {:induction false} TierMembersTier(players: seq<Attendance>, t: int, p: Attendance)
    requires p in TierMembers(players, t)
    ensures PlayerTier(p) == t
  {
    var init := players[..|players| - 1];
    if p in TierMembers(init, t) {
      TierMembersTier(init, t, p);
    }
  }

  lemma ShuffleMembers<T>(s: seq<T>, choices: seq<nat>, x: T)
    requires ValidChoices(choices, |s|) && x in FisherYates(s, choices)
    ensures x in s
  {
    FisherYatesPermutes(s, choices);
    assert x in multiset(FisherYates(s, choices));
  }

  /** Shuffled tier `5 - k` holds only players of that tier. */
  lemma ShuffledTierMembers(players: seq<Attendance>, choices: seq<seq<nat>>, k: nat, p: Attendance)
    requires ValidTierChoices(players, choices) && k < 5
    requires p in ShuffledTiers(players, choices)[k]
    ensures PlayerTier(p) == 5 - k
  {
    var members := TierMembers(players, 5 - k);
    assert ValidChoices(choices[k], |members|);
    assert p in FisherYates(members, choices[k]);
    ShuffleMembers(members, choices[k], p);
    TierMembersTier(players, 5 - k, p);
  }

  /** The deal order runs through tier 5, then 4, down to tier 1. */
  lemma DraftOrderTierSorted(players: seq<Attendance>, choices: seq<seq<nat>>)
    requires ValidTierChoices(players, choices)
    ensures TierNonIncreasing(DraftOrder(players, choices))
  {
    var tiers := ShuffledTiers(players, choices);
    forall k, p | 0 <= k < 5 && p in tiers[k] ensures PlayerTier(p) == 5 - k {
      ShuffledTierMembers(players, choices, k, p);
    }
    FlattenTiered(tiers, 5);
    assert tiers[..5] == tiers;
  }

  /** Concatenating blocks whose members have tiers 5, 4, ... in turn gives a tier-non-increasing sequence. */
  lemma {:induction false} FlattenTiered(tiers: seq<seq<Attendance>>, m: nat)
    requires m <= |tiers|
    requires forall k, p :: 0 <= k < |tiers| && p in tiers[k] ==> PlayerTier(p) == 5 - k
    ensures TierNonIncreasing(Flatten(tiers[..m]))
    ensures forall p :: p in Flatten(tiers[..m]) ==> PlayerTier(p) > 5 - m
  {
    if m > 0 {
      FlattenTiered(tiers, m - 1);
      var prefix, block := Flatten(tiers[..m - 1]), tiers[m - 1];
      assert tiers[..m] == tiers[..m - 1] + [block];
      FlattenSnoc(tiers[..m - 1], block);
      ConcatLowerBlock(prefix, block, 7 - m);
    }
  }

  lemma ConcatLowerBlock(prefix: seq<Attendance>, block: seq<Attendance>, tier: int)
    requires TierNonIncreasing(prefix) && forall p :: p in prefix ==> PlayerTier(p) >= tier
    requires forall p :: p in block ==> PlayerTier(p) == tier - 1
    ensures TierNonIncreasing(prefix + block)
  {
    var all := prefix + block;
    forall i, j | 0 <= i < j < |all| ensures PlayerTier(all[i]) >= PlayerTier(all[j]) {
      if j < |prefix| {
        assert all[i] == prefix[i] && all[j] == prefix[j];
      } else if i < |prefix| {
        assert all[i] in prefix && all[j] in block;
      } else {
        assert all[i] in block && all[j] in block;
      }
    }
  }
}
