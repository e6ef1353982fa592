/**
 * The player cube's QTE progress as values: the success counter that wraps
 * every two successes, the level that indexes the colour palette, the growth
 * steps, and the colour shown by the cube's renderer. Also the cooldown gate
 * that decides when a trail sphere is spawned.
 */
module Leveling {
  import opened Options

  /** An RGBA colour. */
  datatype Color = Color(r: real, g: real, b: real, a: real)

  /** The palette the controller starts with: red, orange, yellow, green, cyan, blue, violet. */
  const DefaultLevelColors: seq<Color> := [
    Color(1.0, 0.0, 0.0, 1.0),
    Color(1.0, 0.5, 0.0, 1.0),
    Color(1.0, 0.92, 0.016, 1.0),
    Color(0.0, 1.0, 0.0, 1.0),
    Color(0.0, 1.0, 1.0, 1.0),
    Color(0.0, 0.0, 1.0, 1.0),
    Color(0.5, 0.0, 1.0, 1.0)
  ]

  /** The highest level the controller reaches with a palette of n colours. */
  function MaxLevel(n: nat): nat
  {
    if n == 0 then 0 else n - 1
  }

  function Min(a: int, b: int): int
  {
    if a <= b then a else b
  }

  /**
   * The QTE-related state of the controller. `color` is the renderer's
   * material colour, None when the cube has no renderer; `growth` counts the
   * 1.1x scale steps.
   */
  datatype Progress = Progress(count: nat, level: nat, growth: nat, color: Option<Color>)

  /**
   * The renderer colour after a level-colour update: the palette entry for
   * `level` when a renderer exists and the index is in range, otherwise the
   * colour is left as it was. No out-of-range entry is ever read.
   */
  function Recolor(color: Option<Color>, colors: seq<Color>, level: nat): (r: Option<Color>)
    ensures r.Some? <==> color.Some?
    ensures r != color ==> level < |colors| && r == Some(colors[level])
    ensures color.Some? && level < |colors| ==> r == Some(colors[level])
  {
    if color.Some? && level < |colors| then Some(colors[level]) else color
  }

  /** The state right after the controller wakes up: counter and level 0, colour updated once. */
  function Initial(renderer: Option<Color>, colors: seq<Color>): Progress
  {
    Progress(0, 0, 0, Recolor(renderer, colors, 0))
  }

  /**
   * The effect of one QTE success: grow one step, bump the counter, and on
   * reaching two reset it and raise the level unless the level is already the
   * last palette index.
   */
  function Succeed(p: Progress, colors: seq<Color>): (r: Progress)
    ensures r.growth == p.growth + 1
    ensures p.level <= r.level <= p.level + 1
    ensures r.level == p.level + 1 <==> p.count >= 1 && p.level < |colors| - 1
    ensures p.count <= 1 ==> r.count == 1 - p.count
  {
    var count := p.count + 1;
    if count >= 2 then
      if p.level < |colors| - 1 then
        var level := p.level + 1;
        Progress(0, level, p.growth + 1, Recolor(p.color, colors, level))
      else
        Progress(0, p.level, p.growth + 1, p.color)
    else
      Progress(count, p.level, p.growth + 1, p.color)
  }

  /** The state after n successes from the initial state. */
  function Successes(n: nat, renderer: Option<Color>, colors: seq<Color>): Progress
  {
    if n == 0 then Initial(renderer, colors)
    else Succeed(Successes(n - 1, renderer, colors), colors)
  }

  /**
   * What holds in every reachable state: the counter is 0 or 1, the level is a
   * palette index (or 0 for an empty palette), and a present renderer shows
   * the palette entry of the current level.
   */
  ghost predicate ProgressInv(p: Progress, colors: seq<Color>)
  {
    && p.count <= 1
    && p.level <= MaxLevel(|colors|)
    && (p.color.Some? && p.level < |colors| ==> p.color.value == colors[p.level])
  }

  lemma InitialInv(renderer: Option<Color>, colors: seq<Color>)
    ensures ProgressInv(Initial(renderer, colors), colors)
    ensures Initial(renderer, colors).color.Some? <==> renderer.Some?
  {
  }

  lemma SucceedKeepsInv(p: Progress, colors: seq<Color>)
    requires ProgressInv(p, colors)
    ensures ProgressInv(Succeed(p, colors), colors)
    ensures Succeed(p, colors).color.Some? <==> p.color.Some?
  {
  }

  /**
   * Closed form: after n successes the counter is n mod 2, the level is
   * n div 2 capped at the last palette index, the cube grew n times, and the
   * renderer shows the palette entry of that level.
   */
  lemma {:induction false} ClosedForm(n: nat, renderer: Option<Color>, colors: seq<Color>)
    ensures Successes(n, renderer, colors).count == n % 2
    ensures Successes(n, renderer, colors).level == Min(n / 2, MaxLevel(|colors|))
    ensures Successes(n, renderer, colors).growth == n
    ensures Successes(n, renderer, colors).color
         == Recolor(renderer, colors, Successes(n, renderer, colors).level)
  {
    if n > 0 {
      ClosedForm(n - 1, renderer, colors);
      var p := Successes(n - 1, renderer, colors);
      if (n - 1) % 2 == 1 {
        assert n / 2 == (n - 1) / 2 + 1;
      } else {
        assert n / 2 == (n - 1) / 2;
      }
    }
  }

  /** Every state reached by successes satisfies the invariant. */
  lemma {:induction false} SuccessesInv(n: nat, renderer: Option<Color>, colors: seq<Color>)
    ensures ProgressInv(Successes(n, renderer, colors), colors)
  {
    if n == 0 {
      InitialInv(renderer, colors);
    } else {
      SuccessesInv(n - 1, renderer, colors);
      SucceedKeepsInv(Successes(n - 1, renderer, colors), colors);
    }
  }

  /** The level never decreases as successes accumulate. */
  lemma LevelMonotone(k: nat, n: nat, renderer: Option<Color>, colors: seq<Color>)
    requires k <= n
    ensures Successes(k, renderer, colors).level <= Successes(n, renderer, colors).level
  {
    ClosedForm(k, renderer, colors);
    ClosedForm(n, renderer, colors);
  }

  /**
   * At the last level a success still cycles the counter but leaves the level
   * and the colour unchanged.
   */
  lemma Saturated(p: Progress, colors: seq<Color>)
    requires ProgressInv(p, colors) && |colors| > 0 && p.level == |colors| - 1
    ensures Succeed(p, colors).level == p.level
    ensures Succeed(p, colors).color == p.color
    ensures Succeed(p, colors).count == 1 - p.count
  {
  }

  /** With the default palette the cube tops out at level 6 (violet) after 12 successes. */
  lemma DefaultPaletteLevels(n: nat, renderer: Option<Color>)
    ensures Successes(n, renderer, DefaultLevelColors).level == Min(n / 2, 6)
    ensures n >= 12 && renderer.Some? ==>
              Successes(n, renderer, DefaultLevelColors).color == Some(Color(0.5, 0.0, 1.0, 1.0))
  {
    ClosedForm(n, renderer, DefaultLevelColors);
  }

  // ---------------------------------------------------------------------
  // Trail spawning

  /**
   * The trail gate of a physics step: the move input (x, y) has squared
   * magnitude above 0.1 and the cooldown has run out.
   */
  predicate TrailGateOpen(moveX: real, moveY: real, time: real, nextSpawnTime: real)
  {
    moveX * moveX + moveY * moveY > 0.1 && time >= nextSpawnTime
  }

  /** Consecutive spawn times are at least `rate` apart. */
  ghost predicate Spaced(times: seq<real>, rate: real)
  {
    forall i :: 0 < i < |times| ==> times[i] - times[i - 1] >= rate
  }

  /**
   * The cooldown invariant: spawns are spaced, and the next permitted spawn
   * is at least `rate` after the last one.
   */
  ghost predicate TrailInv(times: seq<real>, nextSpawnTime: real, rate: real)
  {
    Spaced(times, rate) && (|times| > 0 ==> nextSpawnTime >= times[|times| - 1] + rate)
  }

  /**
   * A gate opening at `time` moves the cooldown to `time + rate` and, when a
   * trail prefab is assigned (`spawn`), records a spawn at `time`. Without a
   * prefab nothing is ever spawned, so the record stays empty.
   */
  lemma GateKeepsTrailInv(times: seq<real>, nextSpawnTime: real, rate: real,
                          moveX: real, moveY: real, time: real, spawn: bool)
    requires TrailInv(times, nextSpawnTime, rate)
    requires TrailGateOpen(moveX, moveY, time, nextSpawnTime)
    requires !spawn ==> times == []
    ensures TrailInv(if spawn then times + [time] else times, time + rate, rate)
  {
    var ts := if spawn then times + [time] else times;
    forall i | 0 < i < |ts|
      ensures ts[i] - ts[i - 1] >= rate
    {
      if i < |times| {
        assert ts[i] == times[i] && ts[i - 1] == times[i - 1];
      }
    }
  }
}
