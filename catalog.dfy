/** The `VARIABLES` table of generate_images.py: four plotted quantities, in
    the dictionary's insertion order, each with its GRIB search pattern,
    colour map, value range and label. */
module Catalog {

  datatype VarKey = Temp | Wind | Refc | Snow

  datatype VariableConfig = VariableConfig(search: string, cmap: string, min: int, max: int, caption: string)

  /** The dictionary order: temp, wind, refc, snow. */
  const Variables: seq<VarKey> := [Temp, Wind, Refc, Snow]

  /** The dictionary key; it names the frame folder. */
  function KeyName(k: VarKey): (s: string)
    ensures |s| == 4
    ensures '_' !in s && '/' !in s
  {
    match k
    case Temp => "temp"
    case Wind => "wind"
    case Refc => "refc"
    case Snow => "snow"
  }

  /** The label of "temp" is kept as the file spells it (a mis-decoded degree sign). */
  function Config(k: VarKey): VariableConfig {
    match k
    case Temp => VariableConfig(":TMP:2 m", "turbo", 0, 100, "Temperature (\U{C2}\U{B0}F)")
    case Wind => VariableConfig(":(UGRD|VGRD):10 m", "viridis", 0, 50, "Wind Speed (mph)")
    case Refc => VariableConfig(":REFC:entire", "pyart_NWSRef", 0, 70, "Simulated Radar (dBZ)")
    case Snow => VariableConfig(":(ASNOW|WEASD):surface", "Blues", 0, 24, "Snowfall (in)")
  }

  /** Position of a key in `Variables`: every key occurs there exactly once. */
  function KeyIndex(k: VarKey): (i: nat)
    ensures i < |Variables| && Variables[i] == k
  {
    match k
    case Temp => 0
    case Wind => 1
    case Refc => 2
    case Snow => 3
  }

  lemma VariablesDistinct()
    ensures forall i :: 0 <= i < |Variables| ==> KeyIndex(Variables[i]) == i
  {
  }

  lemma KeyNameInjective(a: VarKey, b: VarKey)
    requires KeyName(a) == KeyName(b)
    ensures a == b
  {
  }
}
