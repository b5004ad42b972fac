/**
 * The delete button's two-click confirmation (src/components/molecules/TaskActions.jsx):
 * a first click arms it, a second click while armed deletes, and a timer disarms it.
 */
module TaskActions {
  /** What can happen to the button: a click, or the 3-second timer firing. */
  datatype Event = Click | Expire

  /** The button's state, with the number of `onDelete` calls made so far. */
  datatype State = State(showConfirm: bool, deletes: nat)

  const Initial := State(false, 0)

  /** One event: `handleDelete` on a click, `setShowConfirm(false)` when a timer fires. */
  function Step(s: State, e: Event): (r: State)
    ensures e == Click && s.showConfirm ==> r == State(false, s.deletes + 1)
    ensures e == Click && !s.showConfirm ==> r == State(true, s.deletes)
    ensures e == Expire ==> r == State(false, s.deletes)
  {
    match e
    case Click => if s.showConfirm then State(false, s.deletes + 1) else State(true, s.deletes)
    case Expire => State(false, s.deletes)
  }

  function Run(s: State, events: seq<Event>): State
    decreases |events|
  {
    if events == [] then s else Run(Step(s, events[0]), events[1..])
  }

  function Clicks(events: seq<Event>): nat
  {
    if events == [] then 0 else (if events[0] == Click then 1 else 0) + Clicks(events[1..])
  }

  /** Whether the events hold two clicks in a row, the only way to reach `onDelete` from unarmed. */
  predicate DoubleClick(events: seq<Event>)
  {
    exists i :: 0 <= i < |events| - 1 && events[i] == Click && events[i + 1] == Click
  }

  /**
   * Every delete costs two clicks, the first of which armed the button: from any state,
   * twice the deletes made plus the final arming is at most the clicks plus the initial
   * arming.
   */
  lemma {:induction false} DeletesNeedTwoClicks(s: State, events: seq<Event>)
    ensures var r := Run(s, events);
      2 * (r.deletes - s.deletes) + (if r.showConfirm then 1 else 0)
        <= Clicks(events) + (if s.showConfirm then 1 else 0)
    ensures Run(s, events).deletes >= s.deletes
    decreases |events|
  {
    if events != [] {
      DeletesNeedTwoClicks(Step(s, events[0]), events[1..]);
    }
  }

  /** From the unarmed state, nothing is deleted unless two clicks come with no expiry between them. */
  lemma {:induction false} NoDeleteWithoutDoubleClick(s: State, events: seq<Event>)
    requires !s.showConfirm && !DoubleClick(events)
    ensures Run(s, events).deletes == s.deletes
    decreases |events|
  {
    if events == [] {
    } else if events[0] == Click && |events| > 1 {
      assert events[1] != Click;
      var u := Step(Step(s, events[0]), events[1]);
      assert Run(s, events) == Run(u, events[2..]) by {
        assert events[1..][0] == events[1] && events[1..][1..] == events[2..];
      }
      NoDoubleClickInSuffix(events, 2);
      NoDeleteWithoutDoubleClick(u, events[2..]);
    } else if events[0] == Click {
      assert events[1..] == [];
    } else {
      NoDoubleClickInSuffix(events, 1);
      NoDeleteWithoutDoubleClick(Step(s, events[0]), events[1..]);
    }
  }

  /** A suffix of an event list without two clicks in a row has none either. */
  lemma NoDoubleClickInSuffix(events: seq<Event>, d: nat)
    requires d <= |events| && !DoubleClick(events)
    ensures !DoubleClick(events[d..])
  {
    forall i | 0 <= i < |events[d..]| - 1 ensures !(events[d..][i] == Click && events[d..][i + 1] == Click) {
      assert events[d..][i] == events[i + d] && events[d..][i + 1] == events[i + 1 + d];
    }
  }

  /** One click arms without deleting; a second click deletes once; an expiry in between cancels. */
  lemma ClickSequences()
    ensures Run(Initial, [Click]) == State(true, 0)
    ensures Run(Initial, [Click, Click]) == State(false, 1)
    ensures Run(Initial, [Click, Expire, Click]) == State(true, 0)
  {
  }

  /** The button in a task card. */
  class DeleteButton {
    var showConfirm: bool
    var deletes: nat

    constructor ()
      ensures showConfirm == false && deletes == 0
    {
      showConfirm := false;
      deletes := 0;
    }

    /** `handleDelete`: while armed, call `onDelete` once and disarm; otherwise arm. */
    method HandleDelete()
      modifies this
      ensures State(showConfirm, deletes) == Step(old(State(showConfirm, deletes)), Click)
      ensures !old(showConfirm) ==> deletes == old(deletes)
    {
      if showConfirm {
        deletes := deletes + 1;
        showConfirm := false;
      } else {
        showConfirm := true;
      }
    }

    /** The timer set by the arming click fires. */
    method Expire()
      modifies this
      ensures State(showConfirm, deletes) == Step(old(State(showConfirm, deletes)), Event.Expire)
    {
      showConfirm := false;
    }
  }
}
