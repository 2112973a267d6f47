/** The preset table of the main window (main.py and both mac copies): named
    preset records, the name of the current one, and the operations the
    window's buttons and combo box trigger, with the dialogs and the JSON
    file reduced to their inputs. */
module Presets {
  import opened Variants
  import opened Config

  /** The name of the built-in preset, which cannot be deleted. */
  const DefaultName: string := "默认"

  /** The preset table, the current preset's name and the configuration's
      tunables: the state the preset operations read and write. */
  datatype Store = Store(presets: map<string, Dict>, current: string, tunables: Tunables)

  /** What delete_preset does: removes the preset, refuses the built-in one
      with a warning, or fails with KeyError on a name that is not in the
      table, before any change. */
  datatype DeleteOutcome = Removed | DefaultProtected | MissingKey

  /** The parsed configuration file: its "presets" and "last_used" entries,
      each of which may be missing. */
  datatype ConfigFile = ConfigFile(presets: Option<map<string, Dict>>, lastUsed: Option<string>)

  /** The two things every preset operation but a file load keeps true: the
      built-in preset exists and the current name names a preset. */
  predicate Valid(s: Store)
  {
    DefaultName in s.presets && s.current in s.presets
  }

  /** The table the window starts with: only the built-in preset, holding the
      tunables the configuration has at start-up, and it is current. */
  function Initial(v: Variant, t: Tunables): (s: Store)
    ensures Valid(s) && s.current == DefaultName && s.presets.Keys == {DefaultName}
    ensures s.tunables == t
    ensures s.presets[DefaultName].Keys == TunableKeys(v)
  {
    Store(map[DefaultName := ToDict(v, t)], DefaultName, t)
  }

  /** load_selected_preset: a known name becomes current and its record is
      loaded into the configuration; an unknown name changes nothing. */
  function SelectPreset(v: Variant, s: Store, name: string): (r: Store)
    ensures name !in s.presets ==> r == s
    ensures name in s.presets ==> r.presets == s.presets && r.current == name
    ensures name in s.presets ==>
              LoadedReal(s.presets[name], "sensitivity", Defaults.sensitivity, r.tunables.sensitivity)
              && LoadedReal(s.presets[name], "speed_factor", Defaults.speedFactor, r.tunables.speedFactor)
              && LoadedReal(s.presets[name], "dead_zone", Defaults.deadZone, r.tunables.deadZone)
              && LoadedReal(s.presets[name], "overlay_size", Defaults.overlaySize, r.tunables.overlaySize)
              && LoadedFlag(s.presets[name], "enable_horizontal", Defaults.enableHorizontal, r.tunables.enableHorizontal)
    // start_minimized too is what from_dict leaves: loaded in the six-key copies, kept in the five-key one
    ensures name in s.presets ==> r.tunables == DictTunables(v, s.presets[name], s.tunables)
  {
    if name in s.presets then Store(s.presets, name, DictTunables(v, s.presets[name], s.tunables))
    else s
  }

  /** save_new_preset after the name dialog: with a confirmed non-empty name
      the current tunables are stored under it (inserted or overwritten) and
      it becomes current; a cancel or an empty name changes nothing. */
  function SaveNew(v: Variant, s: Store, text: string, ok: bool): (r: Store)
    ensures !(ok && text != "") ==> r == s
    ensures ok && text != "" ==>
              && r.presets.Keys == s.presets.Keys + {text}
              && r.presets[text] == ToDict(v, s.tunables)
              && (forall n :: n in s.presets && n != text ==> r.presets[n] == s.presets[n])
              && r.current == text && r.tunables == s.tunables
  {
    if ok && text != "" then Store(s.presets[text := ToDict(v, s.tunables)], text, s.tunables)
    else s
  }

  /** delete_preset on the name shown in the combo box. */
  function Delete(v: Variant, s: Store, name: string): (r: (Store, DeleteOutcome))
    ensures name == DefaultName ==> r == (s, DefaultProtected)
    ensures name != DefaultName && name !in s.presets ==> r == (s, MissingKey)
    ensures r.1 == Removed <==> name != DefaultName && name in s.presets
    // removing takes out exactly that key, then makes the built-in preset current and loads it
    ensures r.1 == Removed ==>
              && r.0.presets == s.presets - {name}
              && r.0.presets.Keys == s.presets.Keys - {name}
              && r.0.current == DefaultName
              && r.0 == SelectPreset(v, Store(s.presets - {name}, DefaultName, s.tunables), DefaultName)
    // the built-in preset survives every delete
    ensures DefaultName in s.presets ==> DefaultName in r.0.presets && r.0.presets[DefaultName] == s.presets[DefaultName]
  {
    if name == DefaultName then (s, DefaultProtected)
    else if name !in s.presets then (s, MissingKey)
    else
      var removed := Store(s.presets - {name}, DefaultName, s.tunables);
      (SelectPreset(v, removed, DefaultName), Removed)
  }

  /** The dictionary logic of load_presets_from_file once the file has been
      parsed (None: no file, or one that could not be read or parsed, which
      is silently ignored). The table is replaced by the file's, or by a
      fresh built-in preset if the file has none; the last used preset is
      selected only if the new table has it. */
  function LoadFile(v: Variant, s: Store, file: Option<ConfigFile>): (r: Store)
    ensures file == None ==> r == s
    ensures file.Some? ==>
              r.presets == (if file.value.presets.Some? then file.value.presets.value
                            else map[DefaultName := ToDict(v, s.tunables)])
    ensures file.Some? ==>
              var last := if file.value.lastUsed.Some? then file.value.lastUsed.value else DefaultName;
              && (last in r.presets ==> r.current == last && r.tunables == DictTunables(v, r.presets[last], s.tunables))
              && (last !in r.presets ==> r.current == s.current && r.tunables == s.tunables)
  {
    match file
    case None => s
    case Some(f) =>
      var presets := if f.presets.Some? then f.presets.value else map[DefaultName := ToDict(v, s.tunables)];
      var last := if f.lastUsed.Some? then f.lastUsed.value else DefaultName;
      SelectPreset(v, Store(presets, s.current, s.tunables), last)
  }

  /** The operations the window offers once it is up. */
  datatype UiOp = SaveOp(text: string, ok: bool) | SelectOp(name: string) | DeleteOp(name: string)

  function Apply(v: Variant, s: Store, op: UiOp): Store
  {
    match op
    case SaveOp(text, ok) => SaveNew(v, s, text, ok)
    case SelectOp(name) => SelectPreset(v, s, name)
    case DeleteOp(name) => Delete(v, s, name).0
  }

  function ApplyAll(v: Variant, s: Store, ops: seq<UiOp>): Store
    decreases |ops|
  {
    if ops == [] then s else ApplyAll(v, Apply(v, s, ops[0]), ops[1..])
  }

  /** Every save, select and delete keeps the built-in preset and a current
      preset that exists. */
  lemma ApplyPreservesValid(v: Variant, s: Store, op: UiOp)
    requires Valid(s)
    ensures Valid(Apply(v, s, op))
  {
  }

  /** So does any sequence of them, starting from the initial table. */
  lemma {:induction false} UiOpsPreserveValid(v: Variant, s: Store, ops: seq<UiOp>)
    requires Valid(s)
    ensures Valid(ApplyAll(v, s, ops))
    decreases |ops|
  {
    if ops != [] {
      ApplyPreservesValid(v, s, ops[0]);
      UiOpsPreserveValid(v, Apply(v, s, ops[0]), ops[1..]);
    }
  }

  /** A file load keeps the table valid when the file's table (if any) has the
      built-in preset and the current preset is the built-in one, as at
      start-up. */
  lemma LoadFileValid(v: Variant, s: Store, file: Option<ConfigFile>)
    requires Valid(s) && s.current == DefaultName
    requires file.Some? && file.value.presets.Some? ==> DefaultName in file.value.presets.value
    ensures Valid(LoadFile(v, s, file))
  {
  }

  /** Selecting the preset just saved gives back exactly the saved state: the
      stored record restores every tunable it was made from. */
  lemma SaveThenSelect(v: Variant, s: Store, text: string)
    requires text != ""
    ensures SelectPreset(v, SaveNew(v, s, text, true), text) == SaveNew(v, s, text, true)
  {
  }

  /** Deleting a preset leaves every other preset's record as it was. */
  lemma DeleteKeepsOthers(v: Variant, s: Store, name: string, other: string)
    requires name != other && other in s.presets
    ensures other in Delete(v, s, name).0.presets
    ensures Delete(v, s, name).0.presets[other] == s.presets[other]
  {
  }

  /** The main window's preset state, bound to the shared configuration. */
  class PresetManager {
    var presets: map<string, Dict>
    var currentPresetName: string
    const cfg: GlobalConfig
    const v: Variant

    function State(): Store
      reads this, cfg
    {
      Store(presets, currentPresetName, cfg.Snapshot())
    }

    /** The window's constructor, up to the file load. */
    constructor (v: Variant, cfg: GlobalConfig)
      ensures this.v == v && this.cfg == cfg
      ensures State() == Initial(v, old(cfg.Snapshot()))
    {
      this.v := v;
      this.cfg := cfg;
      presets := Initial(v, cfg.Snapshot()).presets;
      currentPresetName := DefaultName;
    }

    /** save_new_preset, given the dialog's text and whether it was confirmed. */
    method SaveNewPreset(text: string, ok: bool)
      modifies this
      ensures State() == SaveNew(v, old(State()), text, ok)
    {
      if ok && text != "" {
        presets := presets[text := ToDict(v, cfg.Snapshot())];
        currentPresetName := text;
      }
    }

    /** load_selected_preset. */
    method LoadSelectedPreset(name: string)
      modifies this`currentPresetName, cfg`sensitivity, cfg`speedFactor, cfg`deadZone,
               cfg`overlaySize, cfg`enableHorizontal, cfg`startMinimized
      ensures State() == SelectPreset(v, old(State()), name)
      ensures cfg.active == old(cfg.active) && cfg.origin == old(cfg.origin)
    {
      if name in presets {
        var data := presets[name];
        currentPresetName := name;
        cfg.FromDict(v, data);
      }
    }

    /** delete_preset on the name the combo box shows. */
    method DeletePreset(name: string) returns (outcome: DeleteOutcome)
      modifies this`presets, this`currentPresetName, cfg`sensitivity, cfg`speedFactor, cfg`deadZone,
               cfg`overlaySize, cfg`enableHorizontal, cfg`startMinimized
      ensures (State(), outcome) == Delete(v, old(State()), name)
      ensures cfg.active == old(cfg.active) && cfg.origin == old(cfg.origin)
    {
      if name == DefaultName {
        return DefaultProtected;
      }
      if name !in presets {
        return MissingKey;
      }
      presets := presets - {name};
      currentPresetName := DefaultName;
      LoadSelectedPreset(DefaultName);
      outcome := Removed;
    }

    /** load_presets_from_file after parsing. */
    method LoadPresetsFromFile(file: Option<ConfigFile>)
      modifies this`presets, this`currentPresetName, cfg`sensitivity, cfg`speedFactor, cfg`deadZone,
               cfg`overlaySize, cfg`enableHorizontal, cfg`startMinimized
      ensures State() == LoadFile(v, old(State()), file)
      ensures cfg.active == old(cfg.active) && cfg.origin == old(cfg.origin)
    {
      if file.Some? {
        presets := if file.value.presets.Some? then file.value.presets.value
                   else map[DefaultName := ToDict(v, cfg.Snapshot())];
        var lastUsed := if file.value.lastUsed.Some? then file.value.lastUsed.value else DefaultName;
        if lastUsed in presets {
          currentPresetName := lastUsed;
          cfg.FromDict(v, presets[lastUsed]);
        }
      }
    }
  }
}
