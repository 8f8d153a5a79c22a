/**
 * The battery level enumeration of internal/linux/batteryLevels.go: an
 * `iota` constant block with two blank lines, whose names come from the
 * line comments.
 */
module BatteryLevels {
  import opened Wrappers
  import Decimal

  /** `batteryLevel`, a `uint32`. */
  newtype Level = x: int | 0 <= x < 0x1_0000_0000

  /**
   * The constant block line by line: `iota` counts every line, the blank
   * `_` lines included, and each named line carries its line comment.
   */
  const Block: seq<Option<string>> :=
    [Some("Unknown"), Some("None"), None, Some("Low"), Some("Critical"), None, Some("Normal"), Some("High"), Some("Full")]

  const Unknown: Level := 0
  const NoBattery: Level := 1
  const Low: Level := 3
  const Critical: Level := 4
  const Normal: Level := 6
  const High: Level := 7
  const Full: Level := 8

  /** The named levels. */
  const Named: seq<Level> := [Unknown, NoBattery, Low, Critical, Normal, High, Full]

  /**
   * The `String` method `stringer -linecomment` generates: the line comment
   * of a named level, `batteryLevel(<n>)` for any other value.
   */
  function String(l: Level): string
  {
    if (l as int) < |Block| && Block[l].Some? then Block[l].value else "batteryLevel(" + Decimal.FormatInt(l as int) + ")"
  }

  /** The level a name denotes: the first line of the block that carries it. */
  function Parse(name: string): (r: Option<Level>)
    ensures r.Some? ==> (r.value as int) < |Block| && Block[r.value] == Some(name)
  {
    ParseFrom(name, 0)
  }

  function ParseFrom(name: string, i: nat): (r: Option<Level>)
    requires i <= |Block|
    ensures r.Some? ==> i <= r.value as int < |Block| && Block[r.value] == Some(name)
    ensures r.None? ==> forall j :: i <= j < |Block| ==> Block[j] != Some(name)
    decreases |Block| - i
  {
    if i == |Block| then None
    else if Block[i] == Some(name) then Some(i as Level)
    else ParseFrom(name, i + 1)
  }

  /** Each constant's value is its line in the block, and that line carries the constant's name. */
  lemma ConstantsFollowIota()
    ensures String(Unknown) == "Unknown" && String(NoBattery) == "None"
    ensures String(Low) == "Low" && String(Critical) == "Critical"
    ensures String(Normal) == "Normal" && String(High) == "High" && String(Full) == "Full"
  {
  }

  /** The blank lines leave 2 and 5 without a name; they print as numbers, as does anything past the block. */
  lemma Gaps()
    ensures Block[2] == None && Block[5] == None
    ensures String(2) == "batteryLevel(2)" && String(5) == "batteryLevel(5)" && String(9) == "batteryLevel(9)"
  {
  }

  /** The named levels are exactly the lines of the block that carry a name. */
  lemma NamedLevels(l: Level)
    ensures l in Named <==> (l as int) < |Block| && Block[l].Some?
  {
  }

  /** The names are distinct: a named level's name parses back to it. */
  lemma ParseOfString(l: Level)
    requires l in Named
    ensures Parse(String(l)) == Some(l)
  {
    var r := Parse(String(l));
    assert r.Some?;
    assert Block[r.value] == Block[l];
  }

  /** A name that parses prints back as itself. */
  lemma StringOfParse(name: string)
    requires Parse(name).Some?
    ensures String(Parse(name).value) == name
  {
  }
}
