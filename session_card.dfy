/**
 * The RSVP counter of a session card (frontend/src/components/sessions/SessionCard.js):
 * each selection sent up by the attendance buttons moves `currentAttendance`
 * according to the previous selection, then becomes the previous selection.
 */
module SessionCard {
  import opened Wrappers

  /** What the attendance buttons send: "yes", "no" or "maybe". */
  datatype Selection = Yes | No | Maybe

  /** The counter state; `None` stands for the initial `null` selection. */
  datatype CardState = CardState(currentAttendance: int, previousSelection: Option<Selection>)

  const Initial: CardState := CardState(0, None)

  /** The change the effect's if-chain makes to the count on a move from `previous` to `incoming`. */
  function Delta(previous: Option<Selection>, incoming: Selection): int {
    if previous == Some(Yes) && incoming == No then -1
    else if previous == Some(No) && incoming == Yes then 1
    else if previous == None && incoming == Yes then 1
    else if previous == Some(Yes) && incoming == Maybe then -1
    else if previous == Some(Maybe) && incoming == Yes then 1
    else 0
  }

  /** One run of the effect on a new `attendanceFromChild` value. */
  function Step(s: CardState, incoming: Option<Selection>): (r: CardState)
    ensures incoming.None? || incoming == s.previousSelection ==> r == s
    ensures incoming.Some? && incoming != s.previousSelection ==>
      r.previousSelection == incoming && r.currentAttendance - s.currentAttendance in {-1, 0, 1}
  {
    if incoming.None? then s
    else if s.previousSelection == incoming then s
    else CardState(s.currentAttendance + Delta(s.previousSelection, incoming.value), incoming)
  }

  /** 1 for a "yes" selection, 0 for anything else. */
  function YesCount(selection: Option<Selection>): int {
    if selection == Some(Yes) then 1 else 0
  }

  /** A real change of selection moves the count by the change in "yes"-ness, and nothing else. */
  lemma DeltaIsYesChange(previous: Option<Selection>, incoming: Selection)
    requires previous != Some(incoming)
    ensures Delta(previous, incoming) == YesCount(Some(incoming)) - YesCount(previous)
  {
    match previous {
      case None =>
      case Some(p) =>
        match p {
          case Yes =>
          case No =>
            match incoming {
              case Yes =>
              case No =>
              case Maybe =>
            }
          case Maybe =>
            match incoming {
              case Yes =>
              case No =>
              case Maybe =>
            }
        }
    }
  }

  /** Which transitions decrement, increment or keep the count. */
  lemma DeltaCases(previous: Option<Selection>, incoming: Selection)
    requires previous != Some(incoming)
    ensures Delta(previous, incoming) == -1 <==> previous == Some(Yes)
    ensures Delta(previous, incoming) == 1 <==> incoming == Yes
    ensures Delta(previous, incoming) == 0 <==> previous != Some(Yes) && incoming != Yes
  {
    DeltaIsYesChange(previous, incoming);
  }

  /** The state after the effect has run on each selection of `selections` in turn. */
  function Replay(s: CardState, selections: seq<Option<Selection>>): CardState {
    if selections == [] then s else Step(Replay(s, selections[..|selections| - 1]), selections[|selections| - 1])
  }

  /** The count is 1 exactly while the current selection is "yes", and 0 otherwise. */
  predicate CountMatchesSelection(s: CardState) {
    s.currentAttendance == YesCount(s.previousSelection)
  }

  lemma StepKeepsCount(s: CardState, incoming: Option<Selection>)
    requires CountMatchesSelection(s)
    ensures CountMatchesSelection(Step(s, incoming))
  {
    if incoming.Some? && incoming != s.previousSelection {
      DeltaIsYesChange(s.previousSelection, incoming.value);
    }
  }

  /** From the initial state, whatever the selections, the count is 1 exactly when "yes" is selected. */
  lemma {:induction false} ReplayCount(selections: seq<Option<Selection>>)
    ensures CountMatchesSelection(Replay(Initial, selections))
    ensures Replay(Initial, selections).currentAttendance in {0, 1}
  {
    if selections != [] {
      ReplayCount(selections[..|selections| - 1]);
      StepKeepsCount(Replay(Initial, selections[..|selections| - 1]), selections[|selections| - 1]);
    }
  }

  /** Sending the same selection twice is the same as sending it once. */
  lemma StepIdempotent(s: CardState, incoming: Option<Selection>)
    ensures Step(Step(s, incoming), incoming) == Step(s, incoming)
  {
  }

  /** The component's state fields. */
  class Card {
    var currentAttendance: int
    var previousSelection: Option<Selection>

    constructor()
      ensures currentAttendance == 0 && previousSelection == None
    {
      currentAttendance := 0;
      previousSelection := None;
    }

    function State(): CardState
      reads this
    {
      CardState(currentAttendance, previousSelection)
    }

    /** The effect on `[attendanceFromChild, previousSelection]`, run once for a new selection. */
    method OnAttendanceFromChild(attendanceFromChild: Option<Selection>)
      modifies this
      ensures State() == Step(old(State()), attendanceFromChild)
    {
      if attendanceFromChild.None? {
        return;
      }
      if previousSelection == attendanceFromChild {
        return;
      }
      var incoming := attendanceFromChild.value;
      if previousSelection == Some(Yes) && incoming == No {
        currentAttendance := currentAttendance - 1;
      } else if previousSelection == Some(No) && incoming == Yes {
        currentAttendance := currentAttendance + 1;
      } else if previousSelection == None && incoming == Yes {
        currentAttendance := currentAttendance + 1;
      } else if previousSelection == Some(Yes) && incoming == Maybe {
        currentAttendance := currentAttendance - 1;
      } else if previousSelection == Some(Maybe) && incoming == Yes {
        currentAttendance := currentAttendance + 1;
      }
      previousSelection := attendanceFromChild;
    }
  }
}
