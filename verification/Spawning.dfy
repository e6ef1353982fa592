/**
 * The QTE manager's spawning rule as a state machine over engine tokens, and
 * the safe area in which a new button is placed.
 *
 * The manager holds a reference to the last button instance it created.
 * The engine treats a reference to a destroyed instance as null, so "no
 * button is active" means: no reference, or a reference to an instance that
 * is no longer live. Three events drive the state: a generator tick (the
 * polling loop wakes up after its wait), a success (a click reaches the
 * manager), and an expiry (a button's countdown runs out and it destroys the
 * instance it belongs to).
 */
module Spawning {
  import opened Options
  import opened Engine

  datatype QTEState = QTEState(
    current: Option<Token>,  // the manager's button reference
    live: set<Token>,        // button instances not destroyed
    created: nat,            // instances created so far (the next token)
    enabled: bool)           // the manager's enabled flag

  datatype Event = Tick | Success | Expire(instance: Token)

  /** A fresh manager: no button, nothing created, enabled. */
  function Init(): QTEState
  {
    QTEState(None, {}, 0, true)
  }

  /** The engine's null test on the manager's reference. */
  predicate IsNull(s: QTEState)
  {
    s.current.None? || s.current.value !in s.live
  }

  function RefSet(r: Option<Token>): set<Token>
  {
    if r.Some? then {r.value} else {}
  }

  /**
   * Showing a new button: without a prefab the manager disables itself and
   * creates nothing; otherwise a new instance is created and becomes current.
   */
  function Show(s: QTEState, prefabAssigned: bool): (r: QTEState)
    ensures !prefabAssigned ==> r == s.(enabled := false)
    ensures prefabAssigned ==> !IsNull(r) && r.current == Some(s.created)
                               && r.live == s.live + {s.created} && r.created == s.created + 1
  {
    if !prefabAssigned then s.(enabled := false)
    else QTEState(Some(s.created), s.live + {s.created}, s.created + 1, s.enabled)
  }

  /** One pass of the generator loop after its wait: show a button only if none is active. */
  function TickStep(s: QTEState, prefabAssigned: bool): (r: QTEState)
    ensures r.created == s.created + 1 <==> IsNull(s) && prefabAssigned
    ensures !IsNull(s) ==> r == s
    ensures IsNull(s) && prefabAssigned ==> !IsNull(r) && r.live == s.live + {s.created}
  {
    if IsNull(s) then Show(s, prefabAssigned) else s
  }

  /**
   * A success: if the current button is still live it is destroyed and the
   * reference cleared. Afterwards no button is active, and no other
   * instance was touched.
   */
  function SuccessStep(s: QTEState): (r: QTEState)
    ensures IsNull(r)
    ensures r.live == s.live - RefSet(s.current)
    ensures r.created == s.created && r.enabled == s.enabled
  {
    if !IsNull(s) then s.(live := s.live - {s.current.value}, current := None) else s
  }

  /** A button's countdown destroyed the given instance. */
  function ExpireStep(s: QTEState, instance: Token): (r: QTEState)
    ensures r.live == s.live - {instance}
    ensures r.current == s.current && r.created == s.created && r.enabled == s.enabled
  {
    s.(live := s.live - {instance})
  }

  function Step(s: QTEState, e: Event, prefabAssigned: bool): QTEState
  {
    match e
    case Tick => TickStep(s, prefabAssigned)
    case Success => SuccessStep(s)
    case Expire(t) => ExpireStep(s, t)
  }

  /** The state after a sequence of events, in order. */
  function Run(s: QTEState, events: seq<Event>, prefabAssigned: bool): QTEState
    decreases |events|
  {
    if events == [] then s
    else Run(Step(s, events[0], prefabAssigned), events[1..], prefabAssigned)
  }

  /** The single-button invariant: every live instance is the current one. */
  ghost predicate Inv(s: QTEState)
  {
    s.live <= RefSet(s.current)
  }

  lemma InvAtMostOne(s: QTEState)
    requires Inv(s)
    ensures |s.live| <= 1
    ensures s.live != {} ==> !IsNull(s)
  {
    if s.live != {} {
      assert s.live == RefSet(s.current);
    }
  }

  lemma StepKeepsInv(s: QTEState, e: Event, prefabAssigned: bool)
    requires Inv(s)
    ensures Inv(Step(s, e, prefabAssigned))
  {
    if e == Tick && IsNull(s) && prefabAssigned {
      assert s.live == {};
    }
  }

  lemma {:induction false} RunKeepsInv(s: QTEState, events: seq<Event>, prefabAssigned: bool)
    requires Inv(s)
    ensures Inv(Run(s, events, prefabAssigned))
    decreases |events|
  {
    if events != [] {
      StepKeepsInv(s, events[0], prefabAssigned);
      RunKeepsInv(Step(s, events[0], prefabAssigned), events[1..], prefabAssigned);
    }
  }

  /**
   * Whatever sequence of ticks, successes and expiries occurs, at most one
   * button instance is live, and a live one is the manager's current button.
   */
  lemma AtMostOneButton(events: seq<Event>, prefabAssigned: bool)
    ensures Inv(Run(Init(), events, prefabAssigned))
    ensures |Run(Init(), events, prefabAssigned).live| <= 1
  {
    RunKeepsInv(Init(), events, prefabAssigned);
    InvAtMostOne(Run(Init(), events, prefabAssigned));
  }

  /**
   * Without a prefab no button is ever created, and once a tick has run the
   * manager is disabled.
   */
  lemma {:induction false} NoPrefabNoButtons(s: QTEState, events: seq<Event>)
    requires s.live == {} && s.created == 0
    ensures Run(s, events, false).live == {} && Run(s, events, false).created == 0
    ensures Run(s, events, false).current == s.current
    ensures Tick in events || !s.enabled ==> !Run(s, events, false).enabled
    decreases |events|
  {
    if events != [] {
      var s' := Step(s, events[0], false);
      assert s'.current == s.current;
      assert events[0] == Tick ==> !s'.enabled;
      assert Tick in events ==> events[0] == Tick || Tick in events[1..];
      NoPrefabNoButtons(s', events[1..]);
    }
  }

  /**
   * Once the current button is gone, by a success or by its own expiry, the
   * next tick shows a new one (given a prefab).
   */
  lemma FreedAfterSuccessOrExpiry(s: QTEState)
    requires Inv(s)
    ensures TickStep(SuccessStep(s), true).created == s.created + 1
    ensures s.current.Some? ==>
              TickStep(ExpireStep(s, s.current.value), true).created == s.created + 1
  {
  }

  // ---------------------------------------------------------------------
  // Safe spawn area

  /**
   * The extent of the safe area along one canvas axis: the canvas size minus
   * a `padding` fraction on both sides. With padding in [0, 0.4] it lies
   * between a fifth of the canvas and the whole canvas.
   */
  function SafeExtent(size: real, padding: real): (r: real)
    requires size >= 0.0 && 0.0 <= padding <= 0.4
    ensures 0.2 * size <= r <= size
  {
    size * (1.0 - padding * 2.0)
  }

  /** A position anchored at the canvas centre that lies in the safe area. */
  ghost predicate InSafeArea(p: Vec2, width: real, height: real, padding: real)
    requires width >= 0.0 && height >= 0.0 && 0.0 <= padding <= 0.4
  {
    && -SafeExtent(width, padding) / 2.0 <= p.x <= SafeExtent(width, padding) / 2.0
    && -SafeExtent(height, padding) / 2.0 <= p.y <= SafeExtent(height, padding) / 2.0
  }

  /**
   * The random draw of a spawn position: any point of the safe area, bounds
   * included, may be chosen.
   */
  method ChooseSpawnPosition(width: real, height: real, padding: real) returns (p: Vec2)
    requires width >= 0.0 && height >= 0.0 && 0.0 <= padding <= 0.4
    ensures InSafeArea(p, width, height, padding)
  {
    var halfW := SafeExtent(width, padding) / 2.0;
    var halfH := SafeExtent(height, padding) / 2.0;
    var x :| -halfW <= x <= halfW;
    var y :| -halfH <= y <= halfH;
    p := Vec2(x, y);
  }

  /**
   * A position in the safe area keeps at least a `padding` fraction of the
   * canvas between itself and every canvas edge.
   */
  lemma SafeAreaKeepsBorder(p: Vec2, width: real, height: real, padding: real)
    requires width >= 0.0 && height >= 0.0 && 0.0 <= padding <= 0.4
    requires InSafeArea(p, width, height, padding)
    ensures -width / 2.0 + padding * width <= p.x <= width / 2.0 - padding * width
    ensures -height / 2.0 + padding * height <= p.y <= height / 2.0 - padding * height
  {
  }
}
