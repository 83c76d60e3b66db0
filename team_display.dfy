/**
 * The team panel of a session page (frontend/src/components/sessions/TeamDisplay.js):
 * which attendances reach the randomiser, how many teams it is asked for,
 * and the `teamsArray` state that `calculateTeams` writes.
 */
module TeamDisplay {
  import opened Wrappers
  import opened TeamRandomizer
  import opened Seqs

  /** The colour labels of the team cards; team `i` is shown as `TeamColors[i]`. */
  const TeamColors: seq<string> := ["Black", "White", "Red", "Blue"]

  /**
   * `allAttendances`: the fetched attendances followed by the dummy list, or the
   * dummy list alone while nothing has been fetched (`attendes` is null).
   * An empty fetched list is truthy in JavaScript and takes the first branch.
   */
  function AllAttendances(attendes: Option<seq<Attendance>>, dummy: seq<Attendance>): (all: seq<Attendance>)
    ensures |all| == (if attendes.Some? then |attendes.value| else 0) + |dummy|
    ensures forall a :: a in all <==> (attendes.Some? && a in attendes.value) || a in dummy
    ensures all[|all| - |dummy|..] == dummy
  {
    if attendes.Some? then attendes.value + dummy else dummy
  }

  /** `allAttendances.filter(a => a.status === "yes")`. */
  function YesAttendances(all: seq<Attendance>): (yes: seq<Attendance>)
    ensures |yes| <= |all|
    ensures forall a :: a in yes <==> a in all && a.status == "yes"
  {
    if all == [] then []
    else
      var last := all[|all| - 1];
      YesAttendances(all[..|all| - 1]) + (if last.status == "yes" then [last] else [])
  }

  /** The filter keeps every "yes" attendance as often as it occurs, and nothing else. */
  lemma {:induction false} YesAttendancesCount(all: seq<Attendance>, a: Attendance)
    ensures multiset(YesAttendances(all))[a] == if a.status == "yes" then multiset(all)[a] else 0
  {
    if all != [] {
      YesAttendancesCount(all[..|all| - 1], a);
      assert all == all[..|all| - 1] + [all[|all| - 1]];
    }
  }

  /** The team count `calculateTeams` picks for `n` "yes" attendances. */
  function TeamCount(n: nat): (numTeams: int)
    ensures 2 <= numTeams <= |TeamColors|
  {
    if 23 <= n <= 28 then 3
    else if n > 28 then 4
    else 2
  }

  /** The three bands of the team-count rule. */
  lemma TeamCountBands(n: nat)
    ensures TeamCount(n) == 2 <==> n < 23
    ensures TeamCount(n) == 3 <==> 23 <= n <= 28
    ensures TeamCount(n) == 4 <==> 28 < n
  {
  }

  /** The team-count rule never lowers the count as attendance grows. */
  lemma TeamCountMonotone(m: nat, n: nat)
    requires m <= n
    ensures TeamCount(m) <= TeamCount(n)
  {
  }

  lemma FlattenHas(lists: seq<seq<Attendance>>, t: nat, p: Attendance)
    requires t < |lists| && p in lists[t]
    ensures p in Flatten(lists)
  {
    var n := |lists|;
    if t < n - 1 {
      FlattenHas(lists[..n - 1], t, p);
    }
  }

  /** The component's state: the teams last computed, `[]` until then. */
  class TeamPanel {
    var teamsArray: seq<seq<Attendance>>

    constructor()
      ensures teamsArray == []
    {
      teamsArray := [];
    }

    /**
     * `calculateTeams`: with no "yes" attendance the teams are cleared and the
     * randomiser is not called; otherwise it is asked for `TeamCount` teams.
     */
    method CalculateTeams(attendes: Option<seq<Attendance>>, dummy: seq<Attendance>, choices: seq<seq<nat>>)
      requires ValidTierChoices(YesAttendances(AllAttendances(attendes, dummy)), choices)
      modifies this
      ensures var yes := YesAttendances(AllAttendances(attendes, dummy));
        && (yes == [] ==> teamsArray == [])
        && (yes != [] ==> RandomizedTeams(yes, TeamCount(|yes|), choices) == Ok(teamsArray))
        && (yes != [] ==> GoodTeams(yes, TeamCount(|yes|), teamsArray))
      ensures |teamsArray| <= |TeamColors|
      ensures forall t, p :: 0 <= t < |teamsArray| && p in teamsArray[t] ==> p.status == "yes"
    {
      var allAttendances := AllAttendances(attendes, dummy);
      var yesAttendances := YesAttendances(allAttendances);
      if |yesAttendances| == 0 {
        teamsArray := [];
        return;
      }
      var numTeams := TeamCount(|yesAttendances|);
      var teams := RandomizeTeams(yesAttendances, numTeams, choices);
      teamsArray := teams.value;
      forall t, p | 0 <= t < |teamsArray| && p in teamsArray[t] ensures p.status == "yes" {
        FlattenHas(teamsArray, t, p);
        assert p in multiset(Flatten(teamsArray));
        assert p in multiset(yesAttendances);
      }
    }
  }
}
