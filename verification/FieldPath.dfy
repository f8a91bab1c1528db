/**
 * Field paths and the three operations on a document they address: get, set and delete.
 *
 * The recursive functions give the tree each operation leaves behind, also when it fails half-way:
 * the program writes into nested containers as it descends. Class Document holds the object the
 * program mutates; its methods follow the program's loops and are proved against the functions.
 */
module FieldPath {
  import opened Json

  /**
   * One step in a path. The program's struct is only ever built by its three constructors; a Field
   * with an empty name, an Index below zero and a KeyMatch with an empty key are the values that
   * none of its three predicates accepts.
   */
  datatype Segment = Field(name: string) | Index(i: int) | KeyMatch(key: string, val: string)
  {
    predicate IsField() { Field? && name != "" }
    predicate IsIndex() { Index? && i >= 0 }
    predicate IsKeyMatch() { KeyMatch? && key != "" }
    predicate IsListSegment() { IsIndex() || IsKeyMatch() }
  }

  type Path = seq<Segment>

  /** What an edit leaves: the container afterwards, and whether the edit took place. */
  datatype Edit = Edit(tree: Json, ok: bool)

  function KeyText(e: Json, key: string): string
    requires e.Obj?
  {
    Sprint(if key in e.fields then e.fields[key] else Null)
  }

  /** A list element that a key match selects. */
  predicate Matches(e: Json, key: string, val: string)
  {
    e.Obj? && KeyText(e, key) == val
  }

  /** The first element a key match selects, or -1. */
  function FindByKey(l: seq<Json>, key: string, val: string): (r: int)
    ensures -1 <= r < |l|
    ensures r >= 0 ==> Matches(l[r], key, val)
    ensures forall j | 0 <= j < |l| && (r < 0 || j < r) :: !Matches(l[j], key, val)
  {
    if l == [] then -1
    else if Matches(l[0], key, val) then 0
    else
      var r := FindByKey(l[1..], key, val);
      if r < 0 then -1 else
      assert forall j | 0 < j < |l| :: l[j] == l[1..][j - 1];
      r + 1
  }

  function Get(c: Json, p: Path): Option<Json>
  {
    if p == [] then Some(c) else
    var seg := p[0];
    if seg.IsField() then
      if c.Obj? && seg.name in c.fields then Get(c.fields[seg.name], p[1..]) else None
    else if seg.IsIndex() then
      if c.Arr? && seg.i < |c.elems| then Get(c.elems[seg.i], p[1..]) else None
    else if seg.IsKeyMatch() then
      if !c.Arr? then None else
      var idx := FindByKey(c.elems, seg.key, seg.val);
      if idx < 0 then None else Get(c.elems[idx], p[1..])
    else Get(c, p[1..])
  }

  /** The container a segment needs as its parent. */
  function EmptyFor(next: Segment): Json
  {
    if next.IsListSegment() then Arr([]) else EMPTY
  }

  /** A list grown until position i exists. */
  function Padded(l: seq<Json>, i: nat): (r: seq<Json>)
    ensures |r| == if |l| <= i then i + 1 else |l|
    ensures forall j | 0 <= j < |r| :: r[j] == if j < |l| then l[j] else EMPTY
    decreases i + 1 - |l|
  {
    if |l| <= i then Padded(l + [EMPTY], i) else l
  }

  /** The list a set works on: the addressed element exists in it. */
  function Grown(l: seq<Json>, seg: Segment): (r: seq<Json>)
    requires seg.IsListSegment()
    ensures |l| <= |r| && r[..|l|] == l
  {
    if seg.IsIndex() then Padded(l, seg.i)
    else if FindByKey(l, seg.key, seg.val) < 0 then l + [Obj(map[seg.key := Str(seg.val)])]
    else l
  }

  /** The position a list segment selects in a grown list. */
  function Position(l: seq<Json>, seg: Segment): (r: nat)
    requires seg.IsListSegment()
    ensures r < |Grown(l, seg)|
  {
    if seg.IsIndex() then seg.i
    else
      var idx := FindByKey(l, seg.key, seg.val);
      if idx < 0 then |l| else idx
  }

  function OrEmpty(c: Json, next: Segment): Json
  {
    if c.Null? then EmptyFor(next) else c
  }

  /** setIn on a map or scalar, setInList on a list. */
  function SetAt(c: Json, p: Path, v: Json): Edit
    requires p != []
    decreases |p|
  {
    var seg := p[0];
    if c.Arr? then
      if !seg.IsListSegment() then Edit(c, false) else
      var l := Grown(c.elems, seg);
      var idx := Position(c.elems, seg);
      if |p| == 1 then Edit(Arr(l[idx := v]), true) else
      var r := SetAt(OrEmpty(l[idx], p[1]), p[1..], v);
      // A failing set loses an appended element but keeps what was written into an existing one.
      if !r.ok && |l| > |c.elems| then Edit(c, false)
      else Edit(Arr(l[idx := r.tree]), r.ok)
    else if !seg.IsField() || !c.Obj? then Edit(c, false)
    else if |p| == 1 then Edit(Obj(c.fields[seg.name := v]), true)
    else
      var child := if seg.name in c.fields then OrEmpty(c.fields[seg.name], p[1]) else EmptyFor(p[1]);
      var r := SetAt(child, p[1..], v);
      Edit(Obj(c.fields[seg.name := r.tree]), r.ok)
  }

  function Set(c: Json, p: Path, v: Json): Edit
  {
    if p == [] || !p[0].IsField() then Edit(c, false) else SetAt(c, p, v)
  }

  /** deleteIn on a map or scalar, deleteInList on a list. */
  function DeleteAt(c: Json, p: Path): Edit
    requires p != []
    decreases |p|
  {
    var seg := p[0];
    if c.Arr? then
      if !seg.IsListSegment() then Edit(c, false) else
      var idx := if seg.IsIndex() then seg.i else FindByKey(c.elems, seg.key, seg.val);
      if !(0 <= idx < |c.elems|) then Edit(c, false)
      else if |p| == 1 then Edit(Arr(c.elems[..idx] + c.elems[idx + 1..]), true)
      else
        var r := DeleteAt(c.elems[idx], p[1..]);
        Edit(Arr(c.elems[idx := r.tree]), r.ok)
    else if !seg.IsField() || !c.Obj? || seg.name !in c.fields then Edit(c, false)
    else if |p| == 1 then Edit(Obj(c.fields - {seg.name}), true)
    else
      var r := DeleteAt(c.fields[seg.name], p[1..]);
      Edit(Obj(c.fields[seg.name := r.tree]), r.ok)
  }

  /** pruneEmpty, from the prefix of length i upwards. */
  function PruneFrom(c: Json, p: Path, i: int): Json
    requires i <= |p|
    decreases i
  {
    if i <= 0 then c else
    match Get(c, p[..i])
    case None => PruneFrom(c, p, i - 1)
    case Some(v) =>
      if v != EMPTY then c else
      var r := DeleteAt(c, p[..i]);
      if !r.ok then r.tree else PruneFrom(r.tree, p, i - 1)
  }

  function Delete(c: Json, p: Path): Edit
  {
    if p == [] then Edit(c, false) else
    var r := DeleteAt(c, p);
    if r.ok then Edit(PruneFrom(r.tree, p, |p| - 1), true) else r
  }

  lemma {:induction false} EditsKeepKind(c: Json, p: Path, v: Json)
    requires p != []
    ensures SetAt(c, p, v).tree.Obj? == c.Obj?
    ensures DeleteAt(c, p).tree.Obj? == c.Obj?
  {}
}
