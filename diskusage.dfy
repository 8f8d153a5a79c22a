/**
 * The older disk usage sensor of internal/device/disk_usage_linux.go: the
 * usage record itself is the sensor state, and each sensor getter is an
 * expression over it.
 */
module DiskUsage {
  import opened DiskStat
  import opened Hass
  import GoStrings
  import SensorDeviceClass
  import DiskSensor

  /** `diskUsageState`: a `disk.UsageStat` under another name. */
  type DiskUsageState = UsageStat

  function Name(d: DiskUsageState): string
  {
    "Mountpoint " + d.path + " Usage"
  }

  function ID(d: DiskUsageState): string
  {
    if d.path == "/" then "mountpoint_root" else "mountpoint" + GoStrings.ReplaceAll(d.path, '/', '_')
  }

  function Icon(d: DiskUsageState): string { "mdi:harddisk" }

  function SensorType(d: DiskUsageState): Hass.SensorType { TypeSensor }

  /** The zero device class: none. */
  function DeviceClass(d: DiskUsageState): SensorDeviceClass.Int64 { 0 }

  function StateClass(d: DiskUsageState): Hass.StateClass { StateTotal }

  /** `State`: the used percentage rounded to the nearest 0.05. */
  function State(d: DiskUsageState): (v: real)
    ensures d.usedPercent - 0.025 <= v <= d.usedPercent + 0.025
  {
    RoundedPercentClose(d.usedPercent);
    RoundedPercent(d.usedPercent)
  }

  function Units(d: DiskUsageState): string { "%" }

  function Category(d: DiskUsageState): string { "" }

  /** `Attributes`: the state record itself. */
  function Attributes(d: DiskUsageState): (a: DiskUsageState)
    ensures a == d
  {
    d
  }

  /** Every getter but `Name`, `ID`, `State` and `Attributes` gives the same answer whatever the record. */
  lemma GettersConstant(d: DiskUsageState, e: DiskUsageState)
    ensures Icon(d) == Icon(e) == "mdi:harddisk"
    ensures SensorType(d) == SensorType(e) == TypeSensor
    ensures DeviceClass(d) == DeviceClass(e) == 0
    ensures StateClass(d) == StateClass(e) == StateTotal
    ensures Units(d) == Units(e) == "%"
    ensures Category(d) == Category(e) == ""
  {
  }

  /** The newer disk sensor built from the same record has the same identity, name, icon, state class, units and value. */
  lemma AgreesWithDiskSensor(d: UsageStat)
    ensures var s := DiskSensor.NewDiskSensor(d);
      && DiskSensor.ID(s) == ID(d) && DiskSensor.Name(s) == Name(d)
      && s.sensor.iconString == Icon(d) && s.sensor.stateClassValue == StateClass(d)
      && s.sensor.unitsString == Units(d) && s.sensor.value == State(d)
  {
  }

  /**
   * Any mount point but the root has the identifier `mountpoint` followed
   * by its path, character for character, with every `/` turned into `_`.
   */
  lemma IDOfPath(d: DiskUsageState)
    requires d.path != "/"
    ensures |ID(d)| == 10 + |d.path| && ID(d)[..10] == "mountpoint"
    ensures forall i :: 0 <= i < |d.path| ==> ID(d)[10 + i] == if d.path[i] == '/' then '_' else d.path[i]
    ensures '/' !in ID(d)
  {
    var r := GoStrings.ReplaceAll(d.path, '/', '_');
    assert ID(d) == "mountpoint" + r;
    forall i | 0 <= i < |d.path| ensures ID(d)[10 + i] == r[i] {
    }
  }

  /** Two mount points other than the root whose paths contain no `_` share an identifier only if they are the same. */
  lemma IDInjectiveWithoutUnderscore(d: DiskUsageState, e: DiskUsageState)
    requires d.path != "/" && e.path != "/" && '_' !in d.path && '_' !in e.path
    requires ID(d) == ID(e)
    ensures d.path == e.path
  {
    var rd, re := GoStrings.ReplaceAll(d.path, '/', '_'), GoStrings.ReplaceAll(e.path, '/', '_');
    assert rd == ID(d)[10..] && re == ID(e)[10..];
    GoStrings.ReplaceAllInjective(d.path, e.path, '/', '_');
  }

  /** The identifier does not tell every mount point apart: `/a/b` and `/a_b` collide. */
  lemma IDCollision(d: DiskUsageState, e: DiskUsageState)
    requires d.path == "/a/b" && e.path == "/a_b"
    ensures ID(d) == ID(e) == "mountpoint_a_b"
  {
    var r := GoStrings.ReplaceAll("/a/b", '/', '_');
    assert r[0] == '_' && r[1] == 'a' && r[2] == '_' && r[3] == 'b';
    var t := GoStrings.ReplaceAll("/a_b", '/', '_');
    assert t[0] == '_' && t[1] == 'a' && t[2] == '_' && t[3] == 'b';
  }

  /** The root and a separate `/root` mount point share the identifier `mountpoint_root`. */
  lemma IDCollisionRoot(f: DiskUsageState, g: DiskUsageState)
    requires f.path == "/" && g.path == "/root"
    ensures ID(f) == ID(g) == "mountpoint_root"
  {
    var r := GoStrings.ReplaceAll("/root", '/', '_');
    assert r[0] == '_' && r[1] == 'r' && r[2] == 'o' && r[3] == 'o' && r[4] == 't';
  }
}
