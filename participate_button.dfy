/**
 * The "participate" button: a four-state machine driven by clicks and by a
 * one-second timer, with a label and a disabled flag derived from the state.
 */
module ParticipateButton {
  import opened Wrappers
  import Text

  datatype ButtonState = Disabled | Ready | Submitting | Done

  /** The text on the button. */
  function Label(state: ButtonState, totalEntries: int): string {
    match state
    case Disabled => "Completa los requisitos"
    case Ready => "Participar (" + Text.IntToDecimal(totalEntries) + ")"
    case Submitting => "Enviando…"
    case Done => "¡Participación confirmada!"
  }

  /** The button refuses clicks exactly while disabled or submitting. */
  predicate IsDisabled(state: ButtonState) {
    state == Disabled || state == Submitting
  }

  /** Different states never share a label. */
  lemma LabelDistinguishesStates(a: ButtonState, b: ButtonState, totalEntries: int)
    ensures Label(a, totalEntries) == Label(b, totalEntries) <==> a == b
  {
    assert Label(Ready, totalEntries)[0] == 'P';
  }

  /** The ready label determines the entry count it shows. */
  lemma ReadyLabelInjective(m: int, n: int)
    requires Label(Ready, m) == Label(Ready, n)
    ensures m == n
  {
    var prefix := "Participar (";
    var dm := Text.IntToDecimal(m);
    var dn := Text.IntToDecimal(n);
    assert |dm| == |dn|;
    assert dm == Label(Ready, m)[|prefix|..|prefix| + |dm|];
    assert dn == Label(Ready, n)[|prefix|..|prefix| + |dn|];
    Text.IntToDecimalInjective(m, n);
  }

  datatype Event = Click | TimerFires

  /** A machine state: the button state and whether the one-second timer is armed. */
  datatype Machine = Machine(state: ButtonState, timerArmed: bool)

  predicate WellFormed(m: Machine) {
    m.timerArmed ==> m.state == Submitting
  }

  /**
   * One event. A click acts only from ready: it moves to submitting and arms
   * the timer. The timer, when armed, moves to done.
   */
  function Step(m: Machine, e: Event): (m': Machine)
    requires WellFormed(m)
    ensures WellFormed(m')
    ensures e == Click ==> (m'.state != m.state <==> m.state == Ready)
    ensures e == Click && m.state == Ready ==> m' == Machine(Submitting, true)
    ensures e == TimerFires ==> (m' != m <==> m.timerArmed)
    ensures e == TimerFires && m.timerArmed ==> m' == Machine(Done, false)
  {
    match e
    case Click => if m.state == Ready then Machine(Submitting, true) else m
    case TimerFires => if m.timerArmed then Machine(Done, false) else m
  }

  /** A click that changes anything was made on an enabled button: disabling never hides a transition. */
  lemma ClickActsOnlyWhenEnabled(m: Machine)
    requires WellFormed(m)
    ensures Step(m, Click) != m ==> !IsDisabled(m.state) && m.state != Done
  {
  }

  function Run(m: Machine, events: seq<Event>): (m': Machine)
    requires WellFormed(m)
    ensures WellFormed(m')
    decreases |events|
  {
    if events == [] then m else Run(Step(m, events[0]), events[1..])
  }

  /** Progress of a state along ready, submitting, done. */
  function Rank(s: ButtonState): nat {
    match s
    case Disabled => 0
    case Ready => 0
    case Submitting => 1
    case Done => 2
  }

  /** No run goes backwards, disabled and done are never left, and ready is never re-entered. */
  lemma {:induction false} RunMonotone(m: Machine, events: seq<Event>)
    requires WellFormed(m)
    ensures Rank(Run(m, events).state) >= Rank(m.state)
    ensures m.state == Disabled ==> Run(m, events).state == Disabled
    ensures m.state == Done ==> Run(m, events).state == Done
    ensures Run(m, events).state == Ready ==> m.state == Ready
    decreases |events|
  {
    if events != [] {
      RunMonotone(Step(m, events[0]), events[1..]);
    }
  }

  /** From ready, a click followed by the timer always ends in done. */
  lemma ClickThenTimerCompletes(totalEntries: int)
    ensures Run(Machine(Ready, false), [Click, TimerFires]) == Machine(Done, false)
    ensures Label(Run(Machine(Ready, false), [Click, TimerFires]).state, totalEntries) == "¡Participación confirmada!"
  {
    assert [Click, TimerFires][1..] == [TimerFires];
  }

  class Button {
    var state: ButtonState
    var timerArmed: bool
    const totalEntries: int

    ghost predicate Valid()
      reads this
    {
      WellFormed(Machine(state, timerArmed))
    }

    /** `useState(initialState)` with the props' defaults: disabled and zero entries. */
    constructor(initialState: Option<ButtonState>, entries: Option<int>)
      ensures Valid()
      ensures state == initialState.GetOr(Disabled) && !timerArmed
      ensures totalEntries == entries.GetOr(0)
    {
      state := initialState.GetOr(Disabled);
      timerArmed := false;
      totalEntries := entries.GetOr(0);
    }

    /** The click handler. */
    method OnClick()
      requires Valid()
      modifies this
      ensures Valid()
      ensures Machine(state, timerArmed) == Step(old(Machine(state, timerArmed)), Click)
    {
      if state != Ready {
        return;
      }
      state := Submitting;
      timerArmed := true;
    }

    /** The `setTimeout` callback, one second after a click. */
    method OnTimer()
      requires Valid()
      modifies this
      ensures Valid()
      ensures Machine(state, timerArmed) == Step(old(Machine(state, timerArmed)), TimerFires)
    {
      if timerArmed {
        state := Done;
        timerArmed := false;
      }
    }
  }
}
