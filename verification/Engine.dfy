/**
 * The part of the game engine that the QTE scripts lean on: an object table
 * for the instantiated button prefabs. Engine objects are abstract tokens; an
 * instance is "live" from Instantiate until Destroy. A reference to an
 * instance that is no longer live compares equal to null in the engine, which
 * the QTE model captures through this table.
 */
module Engine {

  /** An engine object, identified by the order in which it was instantiated. */
  type Token = nat

  /** A 2D position in canvas space (anchored at the canvas centre). */
  datatype Vec2 = Vec2(x: real, y: real)

  class Scene {
    /** Instances that have been created and not destroyed. */
    var live: set<Token>
    /** Number of instances created so far; the next instance gets this token. */
    var created: nat
    /** The anchored position last written to each instance's rect transform. */
    var anchored: map<Token, Vec2>

    constructor ()
      ensures live == {} && created == 0 && anchored == map[]
    {
      live, created, anchored := {}, 0, map[];
    }

    /** Creates a new instance; its token was never handed out before. */
    method Instantiate() returns (t: Token)
      modifies this
      ensures t == old(created) && created == old(created) + 1
      ensures live == old(live) + {t} && anchored == old(anchored)
    {
      t := created;
      created := created + 1;
      live := live + {t};
    }

    /** Destroys an instance; destroying one that is already gone does nothing. */
    method Destroy(t: Token)
      modifies this
      ensures live == old(live) - {t}
      ensures created == old(created) && anchored == old(anchored)
    {
      live := live - {t};
    }

    method SetAnchoredPosition(t: Token, p: Vec2)
      modifies this
      ensures anchored == old(anchored)[t := p]
      ensures live == old(live) && created == old(created)
    {
      anchored := anchored[t := p];
    }
  }
}
