/**
 The player body: the per-scene constants and the integration steps of the
 WELCOME, FLY and GAMEOVER scenes.
 */
module Physics {
  import opened Consts

  /** `playerMaxVelY`: the fastest descent FLY's gravity produces. */
  const MaxVelY: int := 10
  /** `playerMinVelY`: assigned when FLY starts and never read afterwards. */
  const MinVelY: int := -8
  /** `playerFlapAcc`: the velocity a flap sets. */
  const FlapAcc: int := -9
  /** `playerAccY` in FLY and in GAMEOVER. */
  const AccYFly: int := 1
  const AccYOver: int := 2
  /** `playerVelRot` in FLY and in GAMEOVER. */
  const VelRotFly: int := 3
  const VelRotOver: int := 7
  /** GAMEOVER keeps accelerating while the velocity is below this. */
  const FallVelOver: int := 15
  /** The rotation a flap restores, and the rotation below which decay stops. */
  const FlapRot: int := 45
  const MinRot: int := -90
  /** The WELCOME bob's amplitude. */
  const Amplitude: int := 8
  /** `cycle([0, 1, 2, 1])`: the wing animation. */
  const PlayerFrames: seq<nat> := [0, 1, 2, 1]

  function MinReal(a: real, b: real): real { if a < b then a else b }

  /**
   `playery += min(velY, BASEY - playery - height)`: move by the velocity, but
   never below the ground.
   */
  function Fall(y: real, velY: int, height: int): (y': real)
    ensures y' + height as real <= BaseY
    ensures y' + height as real == BaseY <==> velY as real >= BaseY - y - height as real
    ensures y' <= y + velY as real
    ensures velY as real < BaseY - y - height as real ==> y' == y + velY as real
  {
    y + MinReal(velY as real, BaseY - y - height as real)
  }

  /**
   The WELCOME bob offset at scene tick `f`: a triangle wave of amplitude 8,
   `(f % 16 - 8) * (1 - 2 * (int(f / 16) % 2))`.
   */
  function Wave(f: nat): (d: int)
    ensures -Amplitude <= d <= Amplitude
  {
    (f % (2 * Amplitude) - Amplitude) * (-2 * ((f / (2 * Amplitude)) % 2) + 1)
  }

  /** The bob starts at its top, moves one pixel per tick and repeats every 32 ticks. */
  lemma WaveShape(f: nat)
    ensures Wave(0) == -Amplitude
    ensures Wave(f + 32) == Wave(f)
    ensures Wave(f + 1) - Wave(f) == 1 || Wave(f + 1) - Wave(f) == -1
  {
    var q, m := f / 16, f % 16;
    assert f == 16 * q + m;
    assert (f + 32) / 16 == q + 2 && (f + 32) % 16 == m;
    if m < 15 {
      assert (f + 1) / 16 == q && (f + 1) % 16 == m + 1;
    } else {
      assert (f + 1) / 16 == q + 1 && (f + 1) % 16 == 0;
    }
  }

  /** `next(playerIndexGen)`: the frame shown and the generator's next position. */
  function NextFrame(position: nat): (r: (nat, nat))
    requires position < |PlayerFrames|
    ensures r.0 <= 2 && r.1 < |PlayerFrames|
    ensures r.0 == PlayerFrames[position] && r.1 == (position + 1) % |PlayerFrames|
  {
    (PlayerFrames[position], (position + 1) % |PlayerFrames|)
  }

  /** FLY's velocity step: gravity only below the maximum and not on a flap tick. */
  function GravityFly(velY: int, flapped: bool): (v: int)
    ensures FlapAcc <= velY <= MaxVelY ==> FlapAcc <= v <= MaxVelY
    ensures flapped ==> v == velY
    ensures velY <= v <= velY + AccYFly
    ensures !flapped && velY < MaxVelY ==> v == velY + AccYFly
    ensures velY >= MaxVelY ==> v == velY
  {
    if velY < MaxVelY && !flapped then velY + AccYFly else velY
  }

  /** FLY's rotation step: decay by 3 down to -90, or back to 45 on a flap tick. */
  function RotateFly(rot: int, flapped: bool): (r: int)
    ensures MinRot <= rot <= FlapRot && (FlapRot - rot) % VelRotFly == 0 ==>
              MinRot <= r <= FlapRot && (FlapRot - r) % VelRotFly == 0
    ensures flapped ==> r == FlapRot
    ensures !flapped && rot > MinRot ==> r == rot - VelRotFly
    ensures !flapped && rot <= MinRot ==> r == rot
  {
    var decayed := if rot > MinRot then rot - VelRotFly else rot;
    if flapped then FlapRot else decayed
  }

  /** GAMEOVER's velocity step: accelerate by 2 while below 15, so at most 16. */
  function GravityOver(velY: int): (v: int)
    ensures velY <= FallVelOver + 1 ==> v <= FallVelOver + 1
    ensures velY <= v
    ensures velY < FallVelOver ==> v == velY + AccYOver
    ensures velY >= FallVelOver ==> v == velY
  {
    if velY < FallVelOver then velY + AccYOver else velY
  }

  /** GAMEOVER's velocity does reach 16: from 14 one step adds 2. */
  lemma GameOverVelocityPeak()
    ensures GravityOver(14) == FallVelOver + 1
  {
  }

  /** A gravity-only FLY tick from velocity 9, three pixels above the ground, lands exactly on it at velocity 10. */
  lemma LandingScenario(height: int)
    ensures GravityFly(9, false) == MaxVelY
    ensures Fall(BaseY - height as real - 3.0, GravityFly(9, false), height) + height as real == BaseY
  {
  }
}
