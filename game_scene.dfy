/**
 * The scene descriptor asset `GameScene`: the name of the Unity scene it
 * stands for and the priority `order` used to choose the active scene.
 */
module GameScenes {
  import opened Wrappers

  /** The scene name that `UpdateSceneName` derives from the editor's scene
      asset reference: the asset's name, or the empty string when no asset
      is assigned. */
  function SyncedName(asset: Option<string>): string
  {
    match asset
    case None => ""
    case Some(name) => name
  }

  /**
   * A descriptor is a reference: two descriptors with the same name and order
   * are still two members of the loaded-scene set. `order` is serialized and
   * has no setter, so it is a constant here; `sceneName` is rewritten by the
   * editor-time name sync.
   */
  class GameScene {
    /** The editor-only scene asset reference (its name), `None` when unassigned. */
    var asset: Option<string>
    /** The serialized `_sceneName`, read through the `SceneName` getter. */
    var sceneName: string
    /** The serialized `_order`, read through the `Order` getter. */
    const order: int
    /** How many times the asset was marked dirty (`EditorUtility.SetDirty`). */
    var dirtyMarks: nat

    constructor (asset: Option<string>, sceneName: string, order: int)
      ensures this.asset == asset && this.sceneName == sceneName
      ensures this.order == order && dirtyMarks == 0
    {
      this.asset := asset;
      this.sceneName := sceneName;
      this.order := order;
      dirtyMarks := 0;
    }

    /** Keeps the stored name in step with the asset; writes and marks the
        asset dirty only when the name actually changes. */
    method UpdateSceneName()
      modifies this`sceneName, this`dirtyMarks
      ensures sceneName == SyncedName(asset)
      ensures old(sceneName) == SyncedName(asset) ==> dirtyMarks == old(dirtyMarks)
      ensures old(sceneName) != SyncedName(asset) ==> dirtyMarks == old(dirtyMarks) + 1
    {
      var newSceneName := SyncedName(asset);
      if newSceneName == sceneName {
        return;
      }
      sceneName := newSceneName;
      dirtyMarks := dirtyMarks + 1;
    }
  }

  /** Running the sync twice has the effect of running it once: the second
      call finds the name already in step and neither writes nor marks. */
  method UpdateSceneNameTwice(scene: GameScene)
    modifies scene`sceneName, scene`dirtyMarks
    ensures scene.sceneName == SyncedName(scene.asset)
    ensures scene.dirtyMarks
         == old(scene.dirtyMarks) + (if old(scene.sceneName) == SyncedName(scene.asset) then 0 else 1)
  {
    scene.UpdateSceneName();
    scene.UpdateSceneName();
  }
}
