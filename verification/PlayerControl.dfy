/**
 * The player cube controller: its QTE level-up state (success counter, level,
 * renderer colour, growth steps) and its trail-spawn cooldown. Movement,
 * camera follow and the visual details of the trail are engine plumbing and
 * are not part of this model.
 */
module PlayerControl {
  import opened Options
  import opened Leveling

  class PlayerController {
    /** The palette indexed by `level`. */
    const levelColors: seq<Color>
    /** Seconds between two trail spheres. */
    const trailSpawnRate: real
    /** Whether a trail sphere prefab is assigned; without one nothing is spawned. */
    const trailPrefabAssigned: bool

    var qteSuccessCount: nat
    var level: nat
    /** Number of 1.1x scale steps applied so far. */
    var growthSteps: nat
    /** The cube renderer's material colour; None when the cube has no renderer. */
    var rendererColor: Option<Color>
    var nextSpawnTime: real
    /** The times at which trail spheres were spawned, oldest first. */
    var trailSpawns: seq<real>

    ghost function Snapshot(): Progress
      reads this
    {
      Progress(qteSuccessCount, level, growthSteps, rendererColor)
    }

    ghost predicate Valid()
      reads this
    {
      && ProgressInv(Snapshot(), levelColors)
      && TrailInv(trailSpawns, nextSpawnTime, trailSpawnRate)
      && (!trailPrefabAssigned ==> trailSpawns == [])
    }

    /** Field initialisers followed by Awake, which paints the level-0 colour. */
    constructor (levelColors: seq<Color>, renderer: Option<Color>,
                 trailSpawnRate: real, trailPrefabAssigned: bool)
      ensures Valid()
      ensures this.levelColors == levelColors && this.trailSpawnRate == trailSpawnRate
      ensures this.trailPrefabAssigned == trailPrefabAssigned
      ensures Snapshot() == Initial(renderer, levelColors)
      ensures nextSpawnTime == 0.0 && trailSpawns == []
    {
      this.levelColors := levelColors;
      this.trailSpawnRate := trailSpawnRate;
      this.trailPrefabAssigned := trailPrefabAssigned;
      qteSuccessCount, level, growthSteps := 0, 0, 0;
      rendererColor := renderer;
      nextSpawnTime, trailSpawns := 0.0, [];
      new;
      UpdateLevelColor();
      InitialInv(renderer, levelColors);
    }

    /** Shows the palette entry of the current level, if there is a renderer and the entry exists. */
    method UpdateLevelColor()
      modifies this`rendererColor
      ensures rendererColor == Recolor(old(rendererColor), levelColors, level)
    {
      if rendererColor.Some? && level < |levelColors| {
        rendererColor := Some(levelColors[level]);
      }
    }

    /** Called by the QTE manager on each successful click. */
    method OnQTESuccess()
      requires Valid()
      modifies this
      ensures Valid()
      ensures Snapshot() == Succeed(old(Snapshot()), levelColors)
      ensures nextSpawnTime == old(nextSpawnTime) && trailSpawns == old(trailSpawns)
    {
      ghost var before := Snapshot();
      growthSteps := growthSteps + 1;
      qteSuccessCount := qteSuccessCount + 1;
      if qteSuccessCount >= 2 {
        qteSuccessCount := 0;
        if level < |levelColors| - 1 {
          level := level + 1;
          UpdateLevelColor();
        }
      }
      SucceedKeepsInv(before, levelColors);
    }

    /**
     * The trail part of a physics step at engine time `time`, with move input
     * (moveX, moveY): when the gate is open the cooldown restarts and, if a
     * prefab is assigned, a sphere is spawned now.
     */
    method FixedUpdate(time: real, moveX: real, moveY: real)
      requires Valid()
      modifies this`nextSpawnTime, this`trailSpawns
      ensures Valid()
      ensures TrailGateOpen(moveX, moveY, time, old(nextSpawnTime)) ==>
                nextSpawnTime == time + trailSpawnRate
                && trailSpawns == old(trailSpawns) + (if trailPrefabAssigned then [time] else [])
      ensures !TrailGateOpen(moveX, moveY, time, old(nextSpawnTime)) ==>
                nextSpawnTime == old(nextSpawnTime) && trailSpawns == old(trailSpawns)
    {
      if moveX * moveX + moveY * moveY > 0.1 && time >= nextSpawnTime {
        GateKeepsTrailInv(trailSpawns, nextSpawnTime, trailSpawnRate,
                          moveX, moveY, time, trailPrefabAssigned);
        nextSpawnTime := time + trailSpawnRate;
        SpawnTrailSphere(time);
      }
    }

    /** Spawns one trail sphere at `time`, unless no prefab is assigned. */
    method SpawnTrailSphere(time: real)
      modifies this`trailSpawns
      ensures trailSpawns == old(trailSpawns) + (if trailPrefabAssigned then [time] else [])
    {
      if !trailPrefabAssigned {
        return;
      }
      trailSpawns := trailSpawns + [time];
    }
  }
}
