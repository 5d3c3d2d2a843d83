/** The script's settings record `dvls` and the option lists its string settings are compared with. */
module Config {

  /** The options of the "Divide Path By" list. */
  const Divo: seq<string> := ["Length", "Number"]

  /** The options of the "Set By" opacity list. */
  const Ocyo: seq<string> := ["Group", "Path"]

  /** The settings record; field names are those of the script. */
  datatype Settings = Settings(
    minLength: real,
    maxLength: real,
    minStroke: real,
    maxStroke: real,
    opacity: real,
    opctyGrp: string,
    divNum: real,
    divBy: string,
    logPts: bool,
    selfRef: bool)

  /** The record `dvls` holds when the script starts. */
  const Defaults: Settings := Settings(
    minLength := 0.0,
    maxLength := 100.0,
    minStroke := 0.05,
    maxStroke := 0.1,
    opacity := 0.6,
    opctyGrp := Ocyo[1],
    divNum := 10.0,
    divBy := Divo[0],
    logPts := true,
    selfRef := true)

  /** Paths are divided by a fixed arc length exactly when `divBy` is the first option;
      any other value divides by a number of parts. */
  predicate ByLength(s: Settings)
    ensures ByLength(s) <==> s.divBy == "Length"
  {
    s.divBy == Divo[0]
  }

  /** Opacity is set once on the group exactly when `opctyGrp` is the first option;
      any other value sets it on every line. */
  predicate GroupOpacity(s: Settings)
    ensures GroupOpacity(s) <==> s.opctyGrp == "Group"
  {
    s.opctyGrp == Ocyo[0]
  }

  /** At start-up paths are divided by length, opacity is set per line, the length
      band is not empty and the stroke range is increasing; both caching and self
      reference are on. */
  lemma DefaultModes()
    ensures ByLength(Defaults) && !GroupOpacity(Defaults)
    ensures Defaults.minLength < Defaults.maxLength && Defaults.minStroke < Defaults.maxStroke
    ensures Defaults.logPts && Defaults.selfRef
  {
  }
}
