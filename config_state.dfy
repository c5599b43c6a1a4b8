/**
 * The configuration state of the editor: a working configuration, the last
 * saved one, a snapshot to restore, a dirty flag and the last saved path.
 * Every operation keeps the invariant that a clean state has its working
 * configuration equal to the saved one.
 */
module ConfigStateModel {
  import opened Wrappers
  import opened Values

  /** `if config_path:`: a path counts when it is a non-empty string */
  predicate PathGiven(path: Option<string>) {
    path.Some? && path.value != ""
  }

  class ConfigState {
    var working: Dict
    var saved: Dict
    var snapshot: Dict
    var isDirty: bool
    var lastSavedPath: Option<string>

    /** no unsaved changes means the working configuration is the saved one */
    predicate Valid()
      reads this
    {
      !isDirty ==> working == saved
    }

    /** `__init__`: everything empty and clean */
    constructor()
      ensures Valid()
      ensures working == map[] && saved == map[] && snapshot == map[]
      ensures !isDirty && lastSavedPath == None
    {
      working, saved, snapshot := map[], map[], map[];
      isDirty := false;
      lastSavedPath := None;
    }

    /** `load_from_saved`: all three configurations become the loaded one */
    method LoadFromSaved(config: Dict, configPath: Option<string>)
      modifies this
      ensures Valid()
      ensures working == config && saved == config && snapshot == config
      ensures !isDirty && lastSavedPath == configPath
    {
      saved := config;
      working := config;
      snapshot := config;
      isDirty := false;
      lastSavedPath := configPath;
    }

    /** `update_working_config`: only the working configuration changes, and it is marked unsaved */
    method UpdateWorkingConfig(config: Dict)
      modifies this
      ensures Valid()
      ensures working == config && isDirty
      ensures saved == old(saved) && snapshot == old(snapshot) && lastSavedPath == old(lastSavedPath)
    {
      working := config;
      isDirty := true;
    }

    /** `save_working_config`: the working configuration becomes the saved one */
    method SaveWorkingConfig(configPath: Option<string>)
      modifies this
      ensures Valid()
      ensures saved == old(working) && working == old(working) && snapshot == old(snapshot) && !isDirty
      ensures lastSavedPath == if PathGiven(configPath) then configPath else old(lastSavedPath)
    {
      saved := working;
      isDirty := false;
      if PathGiven(configPath) {
        lastSavedPath := configPath;
      }
    }

    /** `restore_from_snapshot`: working and saved both return to the snapshot */
    method RestoreFromSnapshot()
      modifies this
      ensures Valid()
      ensures working == old(snapshot) && saved == old(snapshot) && snapshot == old(snapshot)
      ensures !isDirty && lastSavedPath == old(lastSavedPath)
    {
      working := snapshot;
      saved := snapshot;
      isDirty := false;
    }

    /** `create_snapshot`: the snapshot takes the saved configuration, nothing else moves */
    method CreateSnapshot()
      requires Valid()
      modifies this
      ensures Valid()
      ensures snapshot == old(saved)
      ensures working == old(working) && saved == old(saved) && isDirty == old(isDirty)
      ensures lastSavedPath == old(lastSavedPath)
    {
      snapshot := saved;
    }

    /** `has_unsaved_changes`: false only when the working configuration is saved */
    method HasUnsavedChanges() returns (r: bool)
      requires Valid()
      ensures r == isDirty
      ensures !r ==> working == saved
    {
      return isDirty;
    }

    /** `reset`: all three configurations emptied, clean, no path */
    method Reset()
      modifies this
      ensures Valid()
      ensures working == map[] && saved == map[] && snapshot == map[]
      ensures !isDirty && lastSavedPath == None
    {
      working, saved, snapshot := map[], map[], map[];
      isDirty := false;
      lastSavedPath := None;
    }
  }

  /**
   * Any edit followed by a restore brings working and saved back to the
   * snapshot taken before the edit, with nothing unsaved.
   */
  method EditThenRestore(s: ConfigState, edit: Dict)
    requires s.Valid()
    modifies s
    ensures s.Valid() && !s.isDirty
    ensures s.working == old(s.saved) && s.saved == old(s.saved) && s.snapshot == old(s.saved)
  {
    s.CreateSnapshot();
    s.UpdateWorkingConfig(edit);
    s.RestoreFromSnapshot();
  }
}
