/**
 * The QTE manager and the QTE button script. They refer to each other (the
 * manager creates buttons and hands them itself; a clicked button calls back
 * into the manager), so both classes live in one module.
 *
 * Engine objects are tokens in a Scene, the wait of the generator coroutine
 * is abstracted into one call of GeneratorStep per wake-up, and engine time
 * is a real number passed in by the caller.
 */
module QTE {
  import opened Options
  import opened Engine
  import opened Leveling
  import opened PlayerControl
  import opened Spawning
  import opened Countdown

  class QTEManager {
    /** Whether a button prefab is assigned. */
    const prefabAssigned: bool
    /** The player controller notified on success; null if none was found. */
    const playerController: PlayerController?
    /** Fraction of the canvas kept free on each side, in [0, 0.4]. */
    const spawnAreaPadding: real
    /** The lifetime configured on the button prefab's script. */
    const buttonLifetime: real
    /** The engine objects the manager creates and destroys. */
    const scene: Scene

    var currentQTEButton: Option<Token>
    var enabled: bool

    ghost function State(): QTEState
      reads this, scene
    {
      QTEState(currentQTEButton, scene.live, scene.created, enabled)
    }

    ghost function Footprint(): set<object>
      reads this
    {
      {this, scene} + (if playerController != null then {playerController} else {})
    }

    ghost predicate Valid()
      reads this, scene, playerController
    {
      && Inv(State())
      && 0.0 <= spawnAreaPadding <= 0.4
      && (playerController != null ==> playerController.Valid())
    }

    /**
     * Field set-up plus Start: an unassigned player controller is replaced by
     * the one found in the scene (`sceneLookup`, possibly null).
     */
    constructor (prefabAssigned: bool, inspectorPlayer: PlayerController?, sceneLookup: PlayerController?,
                 spawnAreaPadding: real, buttonLifetime: real)
      requires 0.0 <= spawnAreaPadding <= 0.4
      requires inspectorPlayer != null ==> inspectorPlayer.Valid()
      requires inspectorPlayer == null && sceneLookup != null ==> sceneLookup.Valid()
      ensures Valid() && fresh(scene)
      ensures State() == Init()
      ensures playerController == (if inspectorPlayer != null then inspectorPlayer else sceneLookup)
      ensures this.prefabAssigned == prefabAssigned && this.spawnAreaPadding == spawnAreaPadding
      ensures this.buttonLifetime == buttonLifetime
    {
      this.prefabAssigned := prefabAssigned;
      this.playerController := if inspectorPlayer != null then inspectorPlayer else sceneLookup;
      this.spawnAreaPadding := spawnAreaPadding;
      this.buttonLifetime := buttonLifetime;
      scene := new Scene();
      currentQTEButton := None;
      enabled := true;
    }

    /**
     * One wake-up of the generator loop on a canvas of the given size: a new
     * button is shown only when no button is active.
     */
    method GeneratorStep(canvasWidth: real, canvasHeight: real) returns (button: QTEButton?)
      requires Valid() && canvasWidth >= 0.0 && canvasHeight >= 0.0
      modifies this, scene
      ensures Valid()
      ensures State() == Step(old(State()), Tick, prefabAssigned)
      ensures button != null <==> old(IsNull(State())) && prefabAssigned
      ensures button != null ==> Spawned(button, canvasWidth, canvasHeight)
      ensures button != null ==> fresh(button)
      ensures button == null ==> scene.anchored == old(scene.anchored)
      ensures button != null ==>
                scene.anchored == old(scene.anchored)[currentQTEButton.value := scene.anchored[currentQTEButton.value]]
    {
      button := null;
      if currentQTEButton.None? || currentQTEButton.value !in scene.live {
        button := ShowNewQTEButton(canvasWidth, canvasHeight);
      }
    }

    /**
     * `button` is the script of the current instance, wired to this manager,
     * not yet started, with a full fill, and placed safely.
     */
    ghost predicate Spawned(button: QTEButton, canvasWidth: real, canvasHeight: real)
      requires canvasWidth >= 0.0 && canvasHeight >= 0.0 && 0.0 <= spawnAreaPadding <= 0.4
      reads this, scene, button
    {
      && currentQTEButton.Some?
      && button.manager == this && button.scene == scene
      && button.parent == currentQTEButton && button.lifetime == buttonLifetime
      && button.spawnTime == 0.0 && button.fillAmount == 1.0
      && currentQTEButton.value in scene.anchored
      && InSafeArea(scene.anchored[currentQTEButton.value], canvasWidth, canvasHeight, spawnAreaPadding)
    }

    /**
     * Creates a button instance at a random point of the safe area and wires
     * its script to this manager. Without a prefab the manager disables
     * itself and creates nothing. Only called when no button is active.
     */
    method ShowNewQTEButton(canvasWidth: real, canvasHeight: real) returns (button: QTEButton?)
      requires Valid() && IsNull(State()) && canvasWidth >= 0.0 && canvasHeight >= 0.0
      modifies this, scene
      ensures Valid()
      ensures State() == Show(old(State()), prefabAssigned)
      ensures button != null <==> prefabAssigned
      ensures button != null ==> Spawned(button, canvasWidth, canvasHeight)
      ensures button != null ==> fresh(button)
      ensures !prefabAssigned ==> unchanged(scene)
      ensures button != null ==>
                scene.anchored == old(scene.anchored)[currentQTEButton.value := scene.anchored[currentQTEButton.value]]
    {
      if !prefabAssigned {
        enabled := false;
        return null;
      }
      var t := scene.Instantiate();
      currentQTEButton := Some(t);
      var pos := ChooseSpawnPosition(canvasWidth, canvasHeight, spawnAreaPadding);
      scene.SetAnchoredPosition(t, pos);
      button := new QTEButton(scene, Some(t), buttonLifetime);
      button.manager := this;
    }

    /**
     * A successful click: the player controller (if any) gets exactly one
     * success, then the current button is destroyed if it is still live.
     */
    method OnQTESuccess()
      requires Valid()
      modifies Footprint()
      ensures Valid()
      ensures State() == Step(old(State()), Success, prefabAssigned)
      ensures playerController != null ==>
                && playerController.Snapshot()
                   == Succeed(old(playerController.Snapshot()), playerController.levelColors)
                && playerController.nextSpawnTime == old(playerController.nextSpawnTime)
                && playerController.trailSpawns == old(playerController.trailSpawns)
      ensures scene.anchored == old(scene.anchored)
    {
      if playerController != null {
        playerController.OnQTESuccess();
      }
      if currentQTEButton.Some? && currentQTEButton.value in scene.live {
        scene.Destroy(currentQTEButton.value);
        currentQTEButton := None;
      }
    }
  }

  class QTEButton {
    /** The manager that spawned this button; set by the manager after creation. */
    var manager: QTEManager?
    /** The engine objects of the scene the button lives in. */
    const scene: Scene
    /** The instance this script's object is a child of, if any. */
    const parent: Option<Token>
    const lifetime: real
    var spawnTime: real
    /** The fill fraction of the progress image. */
    var fillAmount: real

    constructor (scene: Scene, parent: Option<Token>, lifetime: real)
      ensures this.scene == scene && this.parent == parent && this.lifetime == lifetime
      ensures manager == null && spawnTime == 0.0 && fillAmount == 1.0
    {
      this.scene := scene;
      this.parent := parent;
      this.lifetime := lifetime;
      manager := null;
      spawnTime := 0.0;
      fillAmount := 1.0;
    }

    /** Records the engine time of the button's first frame. */
    method Start(now: real)
      modifies this`spawnTime
      ensures spawnTime == now
    {
      spawnTime := now;
    }

    /**
     * A frame at engine time `now`: once the age reaches the lifetime the
     * parent instance is destroyed (when there is one) and the fill is left
     * alone; before that the fill shows the remaining fraction.
     */
    method Update(now: real)
      requires now >= spawnTime
      modifies this`fillAmount, scene
      ensures Expired(now - spawnTime, lifetime) ==>
                && fillAmount == old(fillAmount)
                && scene.live == old(scene.live) - RefSet(parent)
      ensures !Expired(now - spawnTime, lifetime) ==>
                fillAmount == Fill(now - spawnTime, lifetime) && scene.live == old(scene.live)
      ensures scene.created == old(scene.created) && scene.anchored == old(scene.anchored)
      ensures manager != null && manager.scene == scene ==>
                manager.State()
                == if Expired(now - spawnTime, lifetime) && parent.Some?
                   then Step(old(manager.State()), Expire(parent.value), manager.prefabAssigned)
                   else old(manager.State())
      ensures manager != null && manager.scene == scene && old(manager.Valid()) ==> manager.Valid()
    {
      var age := now - spawnTime;
      if age >= lifetime {
        if parent.Some? {
          scene.Destroy(parent.value);
        }
        return;
      }
      fillAmount := 1.0 - age / lifetime;
    }

    /**
     * A click forwards one success to the manager, when there is one. The
     * button does not destroy anything itself: the manager decides.
     */
    method OnClick()
      requires manager != null ==> manager.Valid()
      modifies if manager != null then manager.Footprint() else {}
      ensures unchanged(this)
      ensures manager == null ==> unchanged(scene)
      ensures manager != null ==>
                && manager.Valid()
                && manager.State() == Step(old(manager.State()), Success, manager.prefabAssigned)
      ensures manager != null && manager.playerController != null ==>
                && manager.playerController.Snapshot()
                   == Succeed(old(manager.playerController.Snapshot()), manager.playerController.levelColors)
                && manager.playerController.nextSpawnTime == old(manager.playerController.nextSpawnTime)
                && manager.playerController.trailSpawns == old(manager.playerController.trailSpawns)
      ensures manager != null ==> manager.scene.anchored == old(manager.scene.anchored)
    {
      if manager != null {
        manager.OnQTESuccess();
      }
    }
  }

  /** One button at a time, and its countdown. */
  method SessionOneButton()
  {
    var player := new PlayerController(DefaultLevelColors, Some(Color(1.0, 1.0, 1.0, 1.0)), 0.1, true);
    var m := new QTEManager(true, player, null, 0.2, 2.0);
    var b := m.GeneratorStep(1920.0, 1080.0);
    assert b != null && !IsNull(m.State()) && b.fillAmount == 1.0;
    var none := m.GeneratorStep(1920.0, 1080.0);
    assert none == null;
    b.Start(3.0);
    b.Update(4.0);
    assert b.fillAmount == 0.5;
  }

  /** Two clicks raise the default-palette cube from red to orange. */
  method SessionLevelUp()
  {
    var player := new PlayerController(DefaultLevelColors, Some(Color(1.0, 1.0, 1.0, 1.0)), 0.1, true);
    var m := new QTEManager(true, player, null, 0.2, 2.0);
    var b := m.GeneratorStep(1920.0, 1080.0);
    ghost var anchored := m.scene.anchored;
    b.OnClick();
    assert IsNull(m.State()) && m.scene.live == {};
    assert m.scene.anchored == anchored && player.nextSpawnTime == 0.0 && player.trailSpawns == [];
    assert player.qteSuccessCount == 1 && player.level == 0;
    var b2 := m.GeneratorStep(1920.0, 1080.0);
    b2.OnClick();
    assert player.qteSuccessCount == 0 && player.level == 1;
    assert player.rendererColor == Some(Color(1.0, 0.5, 0.0, 1.0));
  }

  /** An expired button destroys its instance, and the next wake-up shows a new one. */
  method SessionExpiry()
  {
    var m := new QTEManager(true, null, null, 0.2, 2.0);
    var b := m.GeneratorStep(1920.0, 1080.0);
    b.Start(9.0);
    b.Update(11.0);
    assert m.scene.live == {} && m.Valid();
    var b2 := m.GeneratorStep(1920.0, 1080.0);
    assert b2 != null;
  }
}
