/** Decoded JSON, as an unstructured Kubernetes object holds it. */
module Json {
  import opened Text

  /**
   * A number is its canonical text: the program compares numbers by their JSON encoding and
   * prints them, and does neither arithmetic nor rounding on them. NumericKeys says where a number
   * prints differently in a contribution and in the live object.
   */
  datatype Json =
    | Null
    | Bool(b: bool)
    | Num(text: string)
    | Str(s: string)
    | Obj(fields: map<string, Json>)
    | Arr(elems: seq<Json>)

  datatype Option<+T> = None | Some(value: T)

  const EMPTY := Obj(map[])

  function First<T>(s: seq<T>): Option<T>
  {
    if s == [] then None else Some(s[0])
  }

  function Tail<T>(s: seq<T>): seq<T>
  {
    if s == [] then [] else s[1..]
  }

  /** The text Go's %v verb gives a decoded JSON value. A missing value is nil, as Null is. */
  function Sprint(j: Json): string
    decreases j, 1, 0
  {
    match j
    case Null => "<nil>"
    case Bool(b) => if b then "true" else "false"
    case Num(text) => text
    case Str(s) => s
    case Obj(m) => "map[" + SprintFields(j, SortedKeys(m.Keys)) + "]"
    case Arr(es) => "[" + SprintElems(es) + "]"
  }

  function SprintFields(j: Json, ks: seq<string>): string
    requires j.Obj? && forall k | k in ks :: k in j.fields
    decreases j, 0, |ks|
  {
    if ks == [] then "" else
    ks[0] + ":" + Sprint(j.fields[ks[0]]) +
    (if |ks| == 1 then "" else " " + SprintFields(j, ks[1..]))
  }

  function SprintElems(es: seq<Json>): string
    decreases es, 0, 0
  {
    if es == [] then "" else
    Sprint(es[0]) + (if |es| == 1 then "" else " " + SprintElems(es[1..]))
  }
}
