/**
 `game_input`: the fold that turns one tick's platform events into a single
 game input.
 */
module Input {

  datatype Key = Escape | Space | Up | OtherKey

  /** A platform event: the window's quit request, a key press, or anything else. */
  datatype Event = QuitEvent | KeyDown(key: Key) | OtherEvent

  /** The source's `GameInput`: IDLE, ACTION and EXIT (here `Quit`). */
  datatype GameInput = Idle | Action | Quit

  /** What one event asks for on its own; `Idle` when it matches no rule. */
  function Meaning(e: Event): GameInput {
    match e
    case QuitEvent => Quit
    case KeyDown(k) =>
      (match k
       case Escape => Quit
       case Space => Action
       case Up => Action
       case OtherKey => Idle)
    case OtherEvent => Idle
  }

  /** The loop body of `game_input`: the exit test, then the action test. */
  function Absorb(current: GameInput, e: Event): GameInput {
    var afterExit := if e.QuitEvent? || e == KeyDown(Escape) then Quit else current;
    if e.KeyDown? && (e.key == Space || e.key == Up) then Action else afterExit
  }

  /**
   The input of a tick: `Idle` when no event matches, otherwise what the last
   matching event asks for.
   */
  function Translate(events: seq<Event>): (r: GameInput)
    ensures r == Idle <==> forall k | 0 <= k < |events| :: Meaning(events[k]) == Idle
    ensures r != Idle ==>
              exists k | 0 <= k < |events| ::
                Meaning(events[k]) == r && forall j | k < j < |events| :: Meaning(events[j]) == Idle
    decreases |events|
  {
    if |events| == 0 then Idle
    else Absorb(Translate(events[..|events| - 1]), events[|events| - 1])
  }

  /** Appending events that match nothing leaves the input unchanged. */
  lemma {:induction false} IgnoredEventsKeepInput(events: seq<Event>, noise: seq<Event>)
    requires forall k | 0 <= k < |noise| :: Meaning(noise[k]) == Idle
    ensures Translate(events + noise) == Translate(events)
    decreases |noise|
  {
    if |noise| > 0 {
      var n := noise[..|noise| - 1];
      assert (events + noise)[..|events + noise| - 1] == events + n;
      IgnoredEventsKeepInput(events, n);
    } else {
      assert events + noise == events;
    }
  }
}
