/**
 The interactive tutorial: a step counter over the five steps of
 `show_interactive_tutorial`, with a "previous" button offered after the
 first step and a "next" button that, on the last step, hides the tutorial
 instead of advancing. The sidebar button toggles the tutorial's visibility.
 */
module Tutorial {

  const StepCount: int := 5

  datatype Tutorial = Tutorial(step: int, visible: bool)

  datatype Button = Prev | Next

  /** `tutorial_step = 1` and `show_tutorial = True` on first use of the session. */
  function Init(): (t: Tutorial)
    ensures t.step == 1 && t.visible
  {
    Tutorial(1, true)
  }

  predicate InRange(t: Tutorial) {
    1 <= t.step <= StepCount
  }

  /** The tutorial is on screen and the step has content, and the button is
      drawn: "previous" only after the first step. */
  predicate Offered(t: Tutorial, b: Button) {
    t.visible && InRange(t) && (b == Prev ==> t.step > 1)
  }

  /** A press of `b`; a button that is not drawn cannot be pressed and changes nothing. */
  function Press(t: Tutorial, b: Button): (r: Tutorial)
    ensures !Offered(t, b) ==> r == t
    ensures Offered(t, Prev) && b == Prev ==> r == t.(step := t.step - 1)
    ensures Offered(t, Next) && b == Next && t.step < StepCount ==> r == t.(step := t.step + 1)
    ensures Offered(t, Next) && b == Next && t.step == StepCount ==> r == t.(visible := false)
    ensures InRange(t) ==> InRange(r)
  {
    if !Offered(t, b) then t
    else match b
      case Prev => t.(step := t.step - 1)
      case Next => if t.step < StepCount then t.(step := t.step + 1) else t.(visible := false)
  }

  /** The sidebar's show/hide button. */
  function Toggle(t: Tutorial): (r: Tutorial)
    ensures r.step == t.step && r.visible == !t.visible
  {
    t.(visible := !t.visible)
  }

  /** "Next" undoes "previous". */
  lemma NextUndoesPrev(t: Tutorial)
    requires Offered(t, Prev)
    ensures Press(Press(t, Prev), Next) == t
  {
  }

  /** "Previous" undoes "next" before the last step. */
  lemma PrevUndoesNext(t: Tutorial)
    requires Offered(t, Next) && t.step < StepCount
    ensures Press(Press(t, Next), Prev) == t
  {
  }

  /** An input to the tutorial: a button press or the sidebar toggle. */
  datatype Input = Click(button: Button) | ToggleVisibility

  function Step(t: Tutorial, i: Input): Tutorial {
    match i
    case Click(b) => Press(t, b)
    case ToggleVisibility => Toggle(t)
  }

  function Run(t: Tutorial, inputs: seq<Input>): Tutorial
    decreases |inputs|
  {
    if inputs == [] then t else Run(Step(t, inputs[0]), inputs[1..])
  }

  /** From the first step, whatever is pressed, the step stays in [1, 5]. */
  lemma {:induction false} StepAlwaysInRange(t: Tutorial, inputs: seq<Input>)
    requires InRange(t)
    ensures InRange(Run(t, inputs))
    decreases |inputs|
  {
    if inputs != [] {
      StepAlwaysInRange(Step(t, inputs[0]), inputs[1..]);
    }
  }

  /** Each input moves the step by at most one. */
  lemma StepMovesByOne(t: Tutorial, i: Input)
    ensures -1 <= Step(t, i).step - t.step <= 1
  {
  }

  /** Pressing "next" five times from the start walks through all steps and
      hides the tutorial on the last one, leaving the step at 5. */
  lemma WalkThrough()
    ensures Run(Init(), [Click(Next), Click(Next), Click(Next), Click(Next), Click(Next)]) == Tutorial(StepCount, false)
  {
    var n := Click(Next);
    assert Run(Tutorial(5, true), [n]) == Tutorial(5, false);
    assert Run(Tutorial(4, true), [n, n]) == Tutorial(5, false);
    assert Run(Tutorial(3, true), [n, n, n]) == Tutorial(5, false);
    assert Run(Tutorial(2, true), [n, n, n, n]) == Tutorial(5, false);
  }
}
