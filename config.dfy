/** The process-wide configuration record (GlobalConfig): the tunables the
    scroll engine reads every tick, the gesture fields the click handler
    writes, and the conversion of the tunables to and from a preset record. */
module Config {
  import opened Variants

  datatype Option<T> = None | Some(value: T)

  /** A pointer position in screen coordinates. */
  datatype Point = Point(x: real, y: real)

  /** The tunables a preset stores (overlay_size only sizes the overlay). */
  datatype Tunables = Tunables(
    sensitivity: real,
    speedFactor: real,
    deadZone: real,
    overlaySize: real,
    enableHorizontal: bool,
    startMinimized: bool)

  /** The class-level defaults of GlobalConfig, which from_dict also falls back to. */
  const Defaults: Tunables := Tunables(2.0, 2.0, 20.0, 60.0, true, false)

  /** A value of a preset record as read from JSON: a number or a boolean. */
  datatype Value = Num(r: real) | Flag(b: bool)

  /** A preset record: a dictionary from key to value. */
  type Dict = map<string, Value>

  /** How Python uses a stored value in arithmetic: True is 1 and False is 0. */
  function AsReal(x: Value): real
  {
    match x
    case Num(r) => r
    case Flag(b) => if b then 1.0 else 0.0
  }

  /** How Python uses a stored value as a condition: its truthiness. */
  function Truthy(x: Value): bool
  {
    match x
    case Num(r) => r != 0.0
    case Flag(b) => b
  }

  /** `data.get(key, default)` for a numeric field. */
  function GetReal(d: Dict, key: string, default: real): real
  {
    if key in d then AsReal(d[key]) else default
  }

  /** `data.get(key, default)` for a boolean field. */
  function GetFlag(d: Dict, key: string, default: bool): bool
  {
    if key in d then Truthy(d[key]) else default
  }

  /** The keys to_dict writes: five in mac/autoscroll_mac.py, six elsewhere. */
  function TunableKeys(v: Variant): set<string>
  {
    {"sensitivity", "speed_factor", "dead_zone", "overlay_size", "enable_horizontal"}
      + (if v.persistsStartMinimized then {"start_minimized"} else {})
  }

  /** A numeric field of a loaded record: the default when the key is missing,
      the stored number when one is stored. */
  ghost predicate LoadedReal(d: Dict, key: string, default: real, got: real)
  {
    && (key !in d ==> got == default)
    && (key in d && d[key].Num? ==> got == d[key].r)
  }

  /** A boolean field of a loaded record, likewise. */
  ghost predicate LoadedFlag(d: Dict, key: string, default: bool, got: bool)
  {
    && (key !in d ==> got == default)
    && (key in d && d[key].Flag? ==> got == d[key].b)
  }

  /** The tunables from_dict leaves in a configuration whose tunables were
      `base`: every key it reads is taken from the record or defaulted; the
      five-key copy has no start_minimized field and keeps base's. */
  function DictTunables(v: Variant, d: Dict, base: Tunables): (t: Tunables)
    ensures LoadedReal(d, "sensitivity", Defaults.sensitivity, t.sensitivity)
    ensures LoadedReal(d, "speed_factor", Defaults.speedFactor, t.speedFactor)
    ensures LoadedReal(d, "dead_zone", Defaults.deadZone, t.deadZone)
    ensures LoadedReal(d, "overlay_size", Defaults.overlaySize, t.overlaySize)
    ensures LoadedFlag(d, "enable_horizontal", Defaults.enableHorizontal, t.enableHorizontal)
    ensures v.persistsStartMinimized ==> LoadedFlag(d, "start_minimized", Defaults.startMinimized, t.startMinimized)
    ensures !v.persistsStartMinimized ==> t.startMinimized == base.startMinimized
  {
    Tunables(
      GetReal(d, "sensitivity", 2.0),
      GetReal(d, "speed_factor", 2.0),
      GetReal(d, "dead_zone", 20.0),
      GetReal(d, "overlay_size", 60.0),
      GetFlag(d, "enable_horizontal", true),
      if v.persistsStartMinimized then GetFlag(d, "start_minimized", false) else base.startMinimized)
  }

  /** to_dict: the preset record of a set of tunables. It has exactly the
      variant's keys, and loading it back with from_dict restores every
      tunable it carries, whatever the loading configuration held before. */
  function ToDict(v: Variant, t: Tunables): (d: Dict)
    ensures d.Keys == TunableKeys(v)
    ensures forall base :: DictTunables(v, d, base)
              == if v.persistsStartMinimized then t else t.(startMinimized := base.startMinimized)
  {
    var d := map[
      "sensitivity" := Num(t.sensitivity),
      "speed_factor" := Num(t.speedFactor),
      "dead_zone" := Num(t.deadZone),
      "overlay_size" := Num(t.overlaySize),
      "enable_horizontal" := Flag(t.enableHorizontal)];
    if v.persistsStartMinimized then d["start_minimized" := Flag(t.startMinimized)] else d
  }

  /** The shared configuration object: the tunables, and the gesture state
      (active, origin) that the click handler writes and the tick reads. */
  class GlobalConfig {
    var sensitivity: real
    var speedFactor: real
    var deadZone: real
    var overlaySize: real
    var enableHorizontal: bool
    var startMinimized: bool
    var active: bool
    var origin: Point

    /** The class-level initial values. */
    constructor ()
      ensures Snapshot() == Defaults
      ensures !active && origin == Point(0.0, 0.0)
    {
      sensitivity, speedFactor, deadZone, overlaySize := 2.0, 2.0, 20.0, 60.0;
      enableHorizontal, startMinimized := true, false;
      active, origin := false, Point(0.0, 0.0);
    }

    /** The tunables as one value. */
    function Snapshot(): Tunables
      reads this
    {
      Tunables(sensitivity, speedFactor, deadZone, overlaySize, enableHorizontal, startMinimized)
    }

    /** from_dict: assigns every tunable field from the record, with defaults
      for missing keys; never touches the gesture fields. */
    method FromDict(v: Variant, d: Dict)
      modifies this`sensitivity, this`speedFactor, this`deadZone, this`overlaySize,
               this`enableHorizontal, this`startMinimized
      ensures Snapshot() == DictTunables(v, d, old(Snapshot()))
      ensures active == old(active) && origin == old(origin)
    {
      sensitivity := GetReal(d, "sensitivity", 2.0);
      speedFactor := GetReal(d, "speed_factor", 2.0);
      deadZone := GetReal(d, "dead_zone", 20.0);
      overlaySize := GetReal(d, "overlay_size", 60.0);
      enableHorizontal := GetFlag(d, "enable_horizontal", true);
      if v.persistsStartMinimized {
        startMinimized := GetFlag(d, "start_minimized", false);
      }
    }
  }
}
