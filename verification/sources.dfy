/**
 * The two hand-kept source tables of the controller (name to number and
 * number to name) and `source_list`.
 */
module Sources {
  import opened Wrappers

  /** The names in the order the name-to-number table lists them. */
  const SourceNames: seq<string> := ["Minijack", "Line", "Optical", "Coax", "USB", "Bluetooth", "Stream"]

  const NameToNumber: map<string, nat> :=
    map["Minijack" := 1, "Line" := 2, "Optical" := 3, "Coax" := 4, "USB" := 5, "Bluetooth" := 6, "Stream" := 7]

  const NumberToName: map<nat, string> :=
    map[1 := "Minijack", 2 := "Line", 3 := "Optical", 4 := "Coax", 5 := "USB", 6 := "Bluetooth", 7 := "Stream"]

  /** `dict.get(name)` on the name-to-number table. */
  function CodeOf(name: string): (r: Option<nat>)
    ensures r.Some? <==> name in SourceNames
    ensures r.Some? ==> 1 <= r.value <= 7 && r.value in NumberToName && NumberToName[r.value] == name
  {
    if name in NameToNumber then Some(NameToNumber[name]) else None
  }

  /** Subscripting the number-to-name table; `None` where Python raises `KeyError`. */
  function NameOf(code: int): (r: Option<string>)
    ensures r.Some? <==> 1 <= code <= 7
    ensures r.Some? ==> r.value in SourceNames && r.value in NameToNumber && NameToNumber[r.value] == code
  {
    if code >= 0 && code in NumberToName then Some(NumberToName[code]) else None
  }

  /** `source_list`: the keys of the name-to-number table, in order. */
  function SourceList(): (r: seq<string>)
    ensures |r| == 7
    ensures forall name :: name in r <==> name in NameToNumber
    ensures forall i, j | 0 <= i < j < |r| :: r[i] != r[j]
    ensures forall i | 0 <= i < |r| :: r[i] in NameToNumber && NameToNumber[r[i]] == i + 1
  {
    SourceNames
  }

  /** The two tables are inverse bijections between the seven names and the codes 1..7. */
  lemma TablesInverse()
    ensures forall name :: name in NameToNumber <==> name in SourceNames
    ensures forall c: nat :: c in NumberToName <==> 1 <= c <= 7
    ensures forall name | name in NameToNumber ::
              NameToNumber[name] in NumberToName && NumberToName[NameToNumber[name]] == name
    ensures forall c | c in NumberToName ::
              NumberToName[c] in NameToNumber && NameToNumber[NumberToName[c]] == c
  {
  }
}
