/**
 The main loop `play`: per iteration, translate the events, switch to EXIT
 on an exit request, count the tick, and run the current scene's handler;
 stop once the scene is EXIT.
 */
module Machine {
  import opened Consts
  import opened Pipes
  import opened Sprites
  import opened Crash
  import opened Physics
  import opened Input
  import opened Scenes

  /** What the platform supplies for one iteration: events, random draws, clock milliseconds. */
  datatype Tick = Tick(events: seq<Event>, draws: Draws, clockMs: nat)

  predicate ValidTicks(ts: seq<Tick>) {
    forall k | 0 <= k < |ts| :: ts[k].draws.Valid()
  }

  /**
   The state a handler sees: `game_input`'s switch to EXIT on an exit
   request, then `GAME_STATE_TICK += 1`.
   */
  function Enter(g: Game, input: GameInput): (v: Game)
    ensures v.scene == (if input == Quit then Exit else g.scene)
    ensures v.tick == (if v.scene != g.scene then 1 else g.tick + 1)
    ensures v == g.(scene := v.scene, tick := v.tick)
  {
    var s := if input == Quit then NextState(g, Exit) else g;
    s.(tick := s.tick + 1)
  }

  /** The handler's view of the iteration that consumes `t`. */
  function View(g: Game, t: Tick): Game {
    Enter(g, Translate(t.events))
  }

  /** One iteration of the loop. */
  function Step(g: Game, t: Tick, a: Assets): (r: Game)
    requires a.Valid() && t.draws.Valid() && Inv(g)
    ensures Inv(r)
  {
    var input := Translate(t.events);
    Handle(Enter(g, input), input, a, t.draws, t.clockMs)
  }

  /** The states the handlers see, one per iteration, until the loop ends or the ticks run out. */
  function Views(g: Game, ts: seq<Tick>, a: Assets): (vs: seq<Game>)
    requires a.Valid() && ValidTicks(ts) && Inv(g)
    ensures |vs| <= |ts|
    ensures g.scene != Exit && |ts| > 0 ==> |vs| > 0 && vs[0] == View(g, ts[0])
    ensures forall k | 0 <= k < |vs| - 1 :: vs[k].scene != Exit
    ensures g.scene != Exit && |vs| < |ts| ==> |vs| > 0 && vs[|vs| - 1].scene == Exit
    decreases |ts|
  {
    if |ts| == 0 || g.scene == Exit then []
    else [View(g, ts[0])] + Views(Step(g, ts[0], a), ts[1..], a)
  }

  /** The states at the top of the loop after each iteration. */
  function Run(g: Game, ts: seq<Tick>, a: Assets): (gs: seq<Game>)
    requires a.Valid() && ValidTicks(ts) && Inv(g)
    ensures |gs| == |Views(g, ts, a)|
    ensures forall k | 0 <= k < |gs| :: Inv(gs[k])
    ensures |gs| > 0 ==> gs[0] == Step(g, ts[0], a)
    ensures forall k | 0 < k < |gs| :: gs[k] == Step(gs[k - 1], ts[k], a)
    decreases |ts|
  {
    if |ts| == 0 || g.scene == Exit then []
    else [Step(g, ts[0], a)] + Run(Step(g, ts[0], a), ts[1..], a)
  }

  /** Every handler run after the first sees the state the previous iteration left, once input is read. */
  lemma {:induction false} ViewsFollowRun(g: Game, ts: seq<Tick>, a: Assets)
    requires a.Valid() && ValidTicks(ts) && Inv(g)
    ensures var vs, gs := Views(g, ts, a), Run(g, ts, a);
            forall k | 0 < k < |vs| :: vs[k] == View(gs[k - 1], ts[k])
    decreases |ts|
  {
    if |ts| > 0 && g.scene != Exit {
      var g1 := Step(g, ts[0], a);
      ViewsFollowRun(g1, ts[1..], a);
      var vs, gs := Views(g, ts, a), Run(g, ts, a);
      var vs1, gs1 := Views(g1, ts[1..], a), Run(g1, ts[1..], a);
      assert vs == [View(g, ts[0])] + vs1;
      assert gs == [g1] + gs1;
      forall k | 0 < k < |vs|
        ensures vs[k] == View(gs[k - 1], ts[k])
      {
        assert vs[k] == vs1[k - 1] && ts[k] == ts[1..][k - 1];
        if k > 1 {
          assert gs[k - 1] == gs1[k - 2];
        } else {
          assert vs1[0] == View(g1, ts[1..][0]);
        }
      }
    }
  }

  /** Each handler run sees tick 1 right after a change of scene, and one more than the previous run otherwise. */
  predicate TickDiscipline(vs: seq<Game>) {
    forall k | 0 < k < |vs| ::
      vs[k].tick == (if vs[k].scene != vs[k - 1].scene then 1 else vs[k - 1].tick + 1)
  }

  lemma {:induction false} ViewsKeepTickDiscipline(g: Game, ts: seq<Tick>, a: Assets)
    requires a.Valid() && ValidTicks(ts) && Inv(g)
    ensures TickDiscipline(Views(g, ts, a))
    decreases |ts|
  {
    if |ts| > 0 && g.scene != Exit {
      var v := View(g, ts[0]);
      var g1 := Step(g, ts[0], a);
      var rest := Views(g1, ts[1..], a);
      ViewsKeepTickDiscipline(g1, ts[1..], a);
      var vs := Views(g, ts, a);
      assert vs == [v] + rest;
      if |rest| > 0 {
        assert rest[0] == View(g1, ts[1..][0]);
        assert vs[1] == rest[0];
      }
      forall k | 1 < k < |vs|
        ensures vs[k].tick == (if vs[k].scene != vs[k - 1].scene then 1 else vs[k - 1].tick + 1)
      {
        assert vs[k] == rest[k - 1] && vs[k - 1] == rest[k - 2];
      }
    }
  }

  /**
   From a new game: the first handler run sees tick 1, and every later run sees
   tick 1 after a change of scene and one more than the run before otherwise.
   */
  lemma SceneTicks(ts: seq<Tick>, a: Assets)
    requires a.Valid() && ValidTicks(ts)
    ensures var vs := Views(NewGame(), ts, a);
            |vs| > 0 ==> vs[0].tick == 1 && (vs[0].scene == Init || vs[0].scene == Exit)
    ensures TickDiscipline(Views(NewGame(), ts, a))
  {
    ViewsKeepTickDiscipline(NewGame(), ts, a);
  }

  /** After every iteration the tick is the handler's own, or 0 if the handler changed scene. */
  lemma StepResetsTick(g: Game, t: Tick, a: Assets)
    requires a.Valid() && t.draws.Valid() && Inv(g) && g.scene != Exit
    ensures var v := View(g, t);
            var r := Step(g, t, a);
            (r.scene == v.scene && r.tick == v.tick) || (r.scene != v.scene && r.tick == 0)
  {
  }

  /** Once the scene is not INIT, no later handler run is in INIT. */
  lemma {:induction false} ViewsAvoidInit(g: Game, ts: seq<Tick>, a: Assets)
    requires a.Valid() && ValidTicks(ts) && Inv(g) && g.scene != Init
    ensures forall k | 0 <= k < |Views(g, ts, a)| :: Views(g, ts, a)[k].scene != Init
    decreases |ts|
  {
    if |ts| > 0 && g.scene != Exit {
      var g1 := Step(g, ts[0], a);
      ViewsAvoidInit(g1, ts[1..], a);
    }
  }

  /** An EXIT run is the last handler run: the loop ends right after it. */
  lemma {:induction false} ExitEndsViews(g: Game, ts: seq<Tick>, a: Assets)
    requires a.Valid() && ValidTicks(ts) && Inv(g)
    ensures var vs := Views(g, ts, a);
            forall k | 0 <= k < |vs| :: vs[k].scene == Exit ==> k == |vs| - 1
    decreases |ts|
  {
    if |ts| > 0 && g.scene != Exit {
      var g1 := Step(g, ts[0], a);
      ExitEndsViews(g1, ts[1..], a);
      var vs := Views(g, ts, a);
      if View(g, ts[0]).scene == Exit {
        assert g1.scene == Exit;
        assert Views(g1, ts[1..], a) == [];
      }
    }
  }

  /** INIT runs at most once, as the very first handler run. */
  lemma InitOnlyFirst(ts: seq<Tick>, a: Assets)
    requires a.Valid() && ValidTicks(ts)
    ensures var vs := Views(NewGame(), ts, a);
            forall k | 0 < k < |vs| :: vs[k].scene != Init
  {
    if |ts| > 0 {
      var g1 := Step(NewGame(), ts[0], a);
      assert g1.scene == Prepare || g1.scene == Exit;
      ViewsAvoidInit(g1, ts[1..], a);
      var vs := Views(NewGame(), ts, a);
      forall k | 0 < k < |vs| ensures vs[k].scene != Init {
        assert vs[k] == Views(g1, ts[1..], a)[k - 1];
      }
    }
  }

  /**
   An exit request switches to EXIT before the handler runs, so the EXIT
   handler runs in that same iteration and the scene stays EXIT.
   */
  lemma ExitFromAnywhere(g: Game, t: Tick, a: Assets)
    requires a.Valid() && t.draws.Valid() && Inv(g) && g.scene != Exit
    requires Translate(t.events) == Quit
    ensures View(g, t).scene == Exit && View(g, t).tick == 1
    ensures Step(g, t, a).scene == Exit
  {
  }

  /** INIT and PREPARE each hand over to the next scene unconditionally. */
  lemma InitAndPrepareAdvance(g: Game, t: Tick, a: Assets)
    requires a.Valid() && t.draws.Valid() && Inv(g) && Translate(t.events) != Quit
    ensures g.scene == Init ==> Step(g, t, a).scene == Prepare
    ensures g.scene == Prepare ==> Step(g, t, a).scene == Welcome
  {
  }

  /** WELCOME moves to FLY exactly on ACTION. */
  lemma WelcomeLeavesOnAction(g: Game, t: Tick, a: Assets)
    requires a.Valid() && t.draws.Valid() && Inv(g) && g.scene == Welcome
    requires Translate(t.events) != Quit
    ensures Step(g, t, a).scene == (if Translate(t.events) == Action then Fly else Welcome)
  {
  }

  /** FLY moves to GAMEOVER exactly when that tick's crash test reports a crash. */
  lemma FlyLeavesOnCrash(g: Game, t: Tick, a: Assets)
    requires a.Valid() && t.draws.Valid() && Inv(g) && g.scene == Fly
    requires Translate(t.events) != Quit
    ensures var f := FlyReady(View(g, t), Translate(t.events), a, t.draws, t.clockMs);
            var c := CheckCrash(a, f.playerx, f.playery, f.playerIndex, f.upperPipes, f.lowerPipes);
            Step(g, t, a).scene == (if c.hit then GameOver else Fly)
            && Step(g, t, a).crashTest == c
  {
  }

  /** GAMEOVER moves to PREPARE exactly on ACTION with the player lying on the ground. */
  lemma GameOverRestarts(g: Game, t: Tick, a: Assets)
    requires a.Valid() && t.draws.Valid() && Inv(g) && g.scene == GameOver
    requires Translate(t.events) != Quit
    ensures Step(g, t, a).scene ==
              (if Translate(t.events) == Action && OnGround(a, g.playery) then Prepare else GameOver)
  {
  }

  /** FLY starts eight pixels above where WELCOME rested the player, whatever tick ACTION came on. */
  lemma FlyStartsAboveWelcome(g: Game, a: Assets, d: Draws, clockMs: nat)
    requires g.scene == Welcome && g.tick >= 1 && Inv(g) && d.Valid()
    ensures var w := WelcomeStep(g, Action, a);
            && w.scene == Fly && w.tick == 0
            && FlyStart(w.(tick := 1), a, d, clockMs).playery == w.playery - Amplitude as real
            && w.playery == (if IsStart(g) then WelcomeY(a) as real else g.playery)
  {
  }

  /**
   The physics facts that hold at the top of every iteration: FLY's bounds
   once FLY has run, and in GAMEOVER a recorded crash and a velocity between
   the flap velocity and 16.
   */
  predicate Sound(g: Game, a: Assets) {
    && Inv(g)
    && (g.scene == Fly && g.tick >= 1 ==> FlyBounds(g, a))
    && (g.scene == GameOver ==> g.crashTest.hit && FlapAcc <= g.velY <= FallVelOver + 1)
  }

  lemma StepKeepsSound(g: Game, t: Tick, a: Assets)
    requires a.Valid() && t.draws.Valid() && Sound(g, a) && g.scene != Exit
    ensures Sound(Step(g, t, a), a)
  {
  }

  lemma {:induction false} RunStaysSound(g: Game, ts: seq<Tick>, a: Assets)
    requires a.Valid() && ValidTicks(ts) && Sound(g, a)
    ensures forall k | 0 <= k < |Run(g, ts, a)| :: Sound(Run(g, ts, a)[k], a)
    decreases |ts|
  {
    if |ts| > 0 && g.scene != Exit {
      var g1 := Step(g, ts[0], a);
      StepKeepsSound(g, ts[0], a);
      RunStaysSound(g1, ts[1..], a);
    }
  }

  /** Every state a game goes through keeps the FLY and GAMEOVER bounds. */
  lemma GameStaysSound(ts: seq<Tick>, a: Assets)
    requires a.Valid() && ValidTicks(ts)
    ensures forall k | 0 <= k < |Run(NewGame(), ts, a)| :: Sound(Run(NewGame(), ts, a)[k], a)
  {
    RunStaysSound(NewGame(), ts, a);
  }

  /** Within one FLY scene the score never decreases from one iteration to the next. */
  lemma FlyScoreNeverDrops(g: Game, t: Tick, a: Assets)
    requires a.Valid() && t.draws.Valid() && Inv(g) && g.scene == Fly && g.tick >= 1
    ensures Step(g, t, a).scene == Fly ==> Step(g, t, a).score >= g.score
  {
  }

  /** After a ground crash the player's rotation stays fixed for the whole GAMEOVER scene. */
  lemma GroundCrashFreezesRotation(g: Game, t: Tick, a: Assets)
    requires a.Valid() && t.draws.Valid() && Inv(g) && g.scene == GameOver && g.crashTest.ground
    ensures Step(g, t, a).scene == GameOver ==> Step(g, t, a).rot == g.rot && Step(g, t, a).crashTest.ground
  {
  }
}
