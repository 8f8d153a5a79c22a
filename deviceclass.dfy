/**
 * The generated `String` method of the sensor device class enumeration
 * (internal/hass/sensor/deviceClassStrings.go): the names of the classes run
 * together in one constant string, a table of 48 offsets into it, and a
 * lookup that slices out the name of an in-range class and otherwise prints
 * the number.
 */
module SensorDeviceClass {
  import Decimal

  const MinInt: int := -0x8000_0000_0000_0000
  const MaxInt: int := 0x7fff_ffff_ffff_ffff

  /** Go's `int` on a 64-bit platform, the underlying type of the enumeration. */
  newtype Int64 = x: int | MinInt <= x <= MaxInt

  /** Two's-complement wrap-around of a mathematical integer into 64 bits. */
  function Wrap(x: int): (r: Int64)
    ensures MinInt <= x <= MaxInt ==> r as int == x
    ensures r as int % 0x1_0000_0000_0000_0000 == x % 0x1_0000_0000_0000_0000
  {
    ((x - MinInt) % 0x1_0000_0000_0000_0000 + MinInt) as Int64
  }

  /**
   * The class names in declaration order, with the `Sensor` prefix trimmed
   * from `SensorBattery`, `SensorPower` and `SensorTemperature` (written in
   * rows of twelve).
   */
  const Names: seq<string> :=
    ["Apparent_power", "Aqi", "Atmospheric_pressure", "Battery", "Carbon_dioxide", "Carbon_monoxide",
     "Current", "Data_rate", "Data_size", "Date", "Distance", "Duration"] +
    ["Energy", "EnergyStorage", "Enum", "Frequency", "Gas", "Humidity",
     "Illuminance", "Irradiance", "Moisture", "Monetary", "Nitrogen_dioxide", "Nitrogen_monoxide"] +
    ["Nitrous_oxide", "Ozone", "Pm1", "Pm25", "Pm10", "Power_factor",
     "Power", "Precipitation", "Precipitation_intensity", "Pressure", "Reactive_power", "Signal_strength"] +
    ["Sound_pressure", "Speed", "Sulphur_dioxide", "Temperature", "Timestamp", "Volatile_organic_compounds",
     "Voltage", "Volume", "Water", "Weight", "Wind_speed"]

  /** The names run together, left to right. */
  function Concat(ns: seq<string>): string
    decreases |ns|
  {
    if ns == [] then "" else Concat(ns[..|ns| - 1]) + ns[|ns| - 1]
  }

  /** `_SensorDeviceClass_name`: the 464 characters of the names run together. */
  const Name: string := Concat(Names)

  /** `_SensorDeviceClass_index` (written in rows of twelve). */
  const Index: seq<int> :=
    [0, 14, 17, 37, 44, 58, 73, 80, 89, 98, 102, 110] +
    [118, 124, 137, 141, 150, 153, 161, 172, 182, 190, 198, 214] +
    [231, 244, 249, 252, 256, 260, 272, 277, 290, 313, 321, 335] +
    [350, 364, 369, 384, 395, 404, 430, 437, 443, 448, 454, 464]

  /** `idx` holds the offsets at which the names of `ns` start in their concatenation, and its end. */
  predicate Delimits(idx: seq<int>, ns: seq<string>)
  {
    |idx| == |ns| + 1 && idx[0] == 0 && forall j :: 0 <= j < |ns| ==> idx[j + 1] == idx[j] + |ns[j]|
  }

  /** `s[a..b]` is defined and equals `t`. */
  predicate Sliced(s: string, a: int, b: int, t: string)
  {
    0 <= a <= b <= |s| && s[a..b] == t
  }

  /** An offset table that delimits a list of strings slices each of them back out of the concatenation. */
  lemma {:induction false} ConcatDelimited(ns: seq<string>, idx: seq<int>)
    requires Delimits(idx, ns)
    ensures |Concat(ns)| == idx[|ns|]
    ensures forall j :: 0 <= j < |ns| ==> Sliced(Concat(ns), idx[j], idx[j + 1], ns[j])
    decreases |ns|
  {
    if ns != [] {
      var n := |ns| - 1;
      var front, ifront := ns[..n], idx[..n + 1];
      assert Delimits(ifront, front) by {
        forall j | 0 <= j < n ensures ifront[j + 1] == ifront[j] + |front[j]| {
          assert ifront[j + 1] == idx[j + 1] && ifront[j] == idx[j] && front[j] == ns[j];
        }
      }
      ConcatDelimited(front, ifront);
      var c := Concat(ns);
      assert c == Concat(front) + ns[n];
      forall j | 0 <= j < |ns|
        ensures Sliced(c, idx[j], idx[j + 1], ns[j])
      {
        if j < n {
          assert Sliced(Concat(front), ifront[j], ifront[j + 1], front[j]);
          assert ifront[j] == idx[j] && ifront[j + 1] == idx[j + 1] && front[j] == ns[j];
          assert c[idx[j]..idx[j + 1]] == Concat(front)[idx[j]..idx[j + 1]];
        } else {
          assert c[idx[n]..idx[n + 1]] == ns[n];
        }
      }
    }
  }

  /** The offsets of a list of non-empty strings grow strictly. */
  lemma {:induction false} DelimitsIncreasing(idx: seq<int>, ns: seq<string>, j: int, k: int)
    requires Delimits(idx, ns) && forall i :: 0 <= i < |ns| ==> |ns[i]| > 0
    requires 0 <= j < k < |idx|
    ensures idx[j] < idx[k]
    decreases k - j
  {
    if j + 1 < k {
      DelimitsIncreasing(idx, ns, j, k - 1);
    }
  }

  lemma TableSize()
    ensures |Names| == 47 && |Index| == 48 && Index[0] == 0 && Index[47] == 464
  {
  }

  lemma TableRow0()
    ensures forall j :: 0 <= j < 12 ==> Index[j + 1] == Index[j] + |Names[j]| && |Names[j]| > 0
  {
  }

  lemma TableRow1()
    ensures forall j :: 12 <= j < 24 ==> Index[j + 1] == Index[j] + |Names[j]| && |Names[j]| > 0
  {
  }

  lemma TableRow2()
    ensures forall j :: 24 <= j < 36 ==> Index[j + 1] == Index[j] + |Names[j]| && |Names[j]| > 0
  {
  }

  lemma TableRow3()
    ensures forall j :: 36 <= j < 47 ==> Index[j + 1] == Index[j] + |Names[j]| && |Names[j]| > 0
  {
  }

  /** The offset table delimits the class names, none of which is empty. */
  lemma IndexDelimitsNames()
    ensures Delimits(Index, Names)
    ensures forall j :: 0 <= j < |Names| ==> |Names[j]| > 0
  {
    TableSize();
    TableRow0();
    TableRow1();
    TableRow2();
    TableRow3();
  }

  /** The offset table has 48 entries, starts at 0, ends at 464 and is strictly increasing. */
  lemma IndexIncreasing()
    ensures |Index| == 48 && Index[0] == 0 && Index[47] == 464
    ensures forall j, k :: 0 <= j < k < |Index| ==> Index[j] < Index[k]
  {
    TableSize();
    IndexDelimitsNames();
    forall j, k | 0 <= j < k < |Index| ensures Index[j] < Index[k] {
      DelimitsIncreasing(Index, Names, j, k);
    }
  }

  /**
   * The name string is 464 characters long, the last offset, and each pair
   * of neighbouring offsets slices out one class name.
   */
  lemma NameTable()
    ensures |Names| == 47 && |Index| == 48 && |Name| == 464
    ensures forall j :: 0 <= j < 47 ==> Sliced(Name, Index[j], Index[j + 1], Names[j])
  {
    TableSize();
    IndexDelimitsNames();
    ConcatDelimited(Names, Index);
  }

  /**
   * `SensorDeviceClass.String`: the value is shifted down by one (with Go's
   * wrap-around); a shifted value outside the table prints the original
   * value, anything else is sliced out of the name string.
   */
  function String(v: Int64): string
  {
    var i := Wrap(v as int - 1);
    if i < 0 || i as int >= |Index| - 1 then
      "SensorDeviceClass(" + Decimal.FormatInt(Wrap(i as int + 1) as int) + ")"
    else
      Slice(i as int)
  }

  /** The slice of the name string between offsets `i` and `i + 1`: the name of class `i + 1`. */
  function Slice(i: int): (s: string)
    requires 0 <= i < |Index| - 1
    ensures s == Names[i]
  {
    NameTable();
    assert Sliced(Name, Index[i], Index[i + 1], Names[i]);
    Name[Index[i]..Index[i + 1]]
  }

  /** Classes 1 to 47 print as the name declared in that position. */
  lemma StringInRange(v: Int64)
    requires 1 <= v <= 47
    ensures String(v) == Names[v - 1]
    ensures |String(v)| > 0
  {
    TableSize();
    assert Wrap(v as int - 1) as int == v as int - 1;
    IndexDelimitsNames();
  }

  /**
   * Any other value prints as `SensorDeviceClass(<v>)` with the value as
   * given: the shift is undone before printing, so even the wrap-around of
   * the smallest value is invisible.
   */
  lemma StringOutOfRange(v: Int64)
    requires v < 1 || v > 47
    ensures String(v) == "SensorDeviceClass(" + Decimal.FormatInt(v as int) + ")"
  {
    ShiftUndone(v);
  }

  /** The shift down wraps only the smallest value, and shifting back up restores every value. */
  lemma ShiftUndone(v: Int64)
    ensures var i := Wrap(v as int - 1);
      && (v as int == MinInt ==> i as int == MaxInt)
      && (v as int != MinInt ==> i as int == v as int - 1)
      && Wrap(i as int + 1) == v
  {
    var i := Wrap(v as int - 1);
    if v as int == MinInt {
      assert i as int == MaxInt;
      assert Wrap(MaxInt + 1) as int == MinInt;
    } else {
      assert i as int == v as int - 1;
    }
  }

  /** The classes whose constants carry the `Sensor` prefix print without it, and the first and last names. */
  lemma StringExamples()
    ensures String(1) == "Apparent_power"
    ensures String(4) == "Battery"
    ensures String(31) == "Power"
    ensures String(40) == "Temperature"
    ensures String(47) == "Wind_speed"
  {
    StringInRange(1);
    StringInRange(4);
    StringInRange(31);
    StringInRange(40);
    StringInRange(47);
  }

  /** Values just outside the table, and a negative one, print their number. */
  lemma StringFallbackExamples()
    ensures String(0) == "SensorDeviceClass(0)"
    ensures String(48) == "SensorDeviceClass(48)"
    ensures String(-3) == "SensorDeviceClass(-3)"
  {
    StringOutOfRange(0);
    StringOutOfRange(48);
    StringOutOfRange(-3);
  }
}
