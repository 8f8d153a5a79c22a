/**
 * The disk usage sensor of internal/linux/disk/diskUsage.go: a sensor built
 * from a usage record, named and identified after its mount point.
 */
module DiskSensor {
  import opened DiskStat
  import opened Hass
  import GoStrings

  /** `linux.DataSrcProcfs`: the data source the sensor reports. */
  datatype DataSource = DataSrcProcfs

  /** The fields of `linux.Sensor` a disk sensor sets. */
  datatype Sensor = Sensor(iconString: string, stateClassValue: StateClass, unitsString: string, value: real)

  /** `diskSensor`: the usage record and the sensor fields. */
  datatype DiskSensor = DiskSensor(stats: UsageStat, sensor: Sensor)

  /** The attributes: the data source and a copy of the usage record. */
  datatype Attributes = Attributes(dataSource: DataSource, stats: UsageStat)

  /**
   * `newDiskSensor`: a hard-disk icon, the total state class, percent as the
   * unit, the record as given, and the used percentage rounded to the
   * nearest 0.05.
   */
  function NewDiskSensor(d: UsageStat): (s: DiskSensor)
    ensures s.stats == d
    ensures s.sensor.iconString == "mdi:harddisk" && s.sensor.stateClassValue == StateTotal && s.sensor.unitsString == "%"
    ensures d.usedPercent - 0.025 <= s.sensor.value <= d.usedPercent + 0.025
  {
    RoundedPercentClose(d.usedPercent);
    DiskSensor(d, Sensor("mdi:harddisk", StateTotal, "%", RoundedPercent(d.usedPercent)))
  }

  /** `Name`. */
  function Name(s: DiskSensor): string
  {
    "Mountpoint " + s.stats.path + " Usage"
  }

  /** `ID`: the root mount point is `mountpoint_root`; any other is `mountpoint` and its path with `/` turned into `_`. */
  function ID(s: DiskSensor): string
  {
    if s.stats.path == "/" then "mountpoint_root" else "mountpoint" + GoStrings.ReplaceAll(s.stats.path, '/', '_')
  }

  /** `Attributes`. */
  function SensorAttributes(s: DiskSensor): (a: Attributes)
    ensures a.dataSource == DataSrcProcfs && a.stats == s.stats
  {
    Attributes(DataSrcProcfs, s.stats)
  }

  /** The name shows the mount point between a fixed prefix and suffix, so it can be read back. */
  lemma NameShowsPath(s: DiskSensor)
    ensures |Name(s)| == |s.stats.path| + 17
    ensures Name(s)[..11] == "Mountpoint " && Name(s)[|Name(s)| - 6..] == " Usage"
    ensures Name(s)[11..|Name(s)| - 6] == s.stats.path
  {
  }
}
