/**
 * The document the program mutates. The methods follow the program's loops and writes and are proved
 * against the functions of FieldPath.
 */
module Documents {
  import opened Json
  import FieldPath

  method FindByKeyLoop(l: seq<Json>, key: string, val: string) returns (r: int)
    ensures r == FieldPath.FindByKey(l, key, val)
  {
    for i := 0 to |l|
      invariant forall j | 0 <= j < i :: !FieldPath.Matches(l[j], key, val)
    {
      if l[i].Obj? && FieldPath.KeyText(l[i], key) == val {
        return i;
      }
    }
    return -1;
  }

  /** setIn: writes below a map, making the containers it lacks. */
  method SetIn(container: Json, p: FieldPath.Path, v: Json) returns (after: Json, ok: bool)
    requires p != [] && !container.Arr?
    ensures FieldPath.Edit(after, ok) == FieldPath.SetAt(container, p, v)
    decreases |p|
  {
    var seg := p[0];
    if !seg.IsField() || !container.Obj? { return container, false; }
    var m := container.fields;
    if |p| == 1 {
      m := m[seg.name := v];
      return Obj(m), true;
    }
    if seg.name !in m || m[seg.name].Null? {
      m := m[seg.name := FieldPath.EmptyFor(p[1])];
    }
    var child := m[seg.name];
    if child.Arr? {
      var updated, done := SetInList(child.elems, p[1..], v);
      child, ok := Arr(updated), done;
    } else {
      child, ok := SetIn(child, p[1..], v);
    }
    m := m[seg.name := child];
    assert m == container.fields[seg.name := child];
    after := Obj(m);
  }

  /** The list grown until the addressed element is there, and where it is. */
  method Grow(list: seq<Json>, seg: FieldPath.Segment) returns (l: seq<Json>, idx: nat)
    requires seg.IsListSegment()
    ensures l == FieldPath.Grown(list, seg) && idx == FieldPath.Position(list, seg)
  {
    l, idx := list, 0;
    if seg.IsIndex() {
      idx := seg.i;
      while |l| <= idx
        invariant FieldPath.Padded(l, idx) == FieldPath.Padded(list, idx)
        decreases idx + 1 - |l|
      {
        l := l + [EMPTY];
      }
    } else {
      var found := FindByKeyLoop(l, seg.key, seg.val);
      if found < 0 {
        l := l + [Obj(map[seg.key := Str(seg.val)])];
        found := |l| - 1;
      }
      idx := found;
    }
  }

  /** setInList: the list as its holder sees it afterwards, which misses what a failing set appended. */
  method SetInList(list: seq<Json>, p: FieldPath.Path, v: Json) returns (after: seq<Json>, ok: bool)
    requires p != []
    ensures FieldPath.Edit(Arr(after), ok) == FieldPath.SetAt(Arr(list), p, v)
    decreases |p|
  {
    if !p[0].IsListSegment() { return list, false; }
    var l, idx := Grow(list, p[0]);
    if |p| == 1 {
      l := l[idx := v];
      return l, true;
    }
    var e := l[idx];
    if e.Null? {
      e := FieldPath.EmptyFor(p[1]);
    }
    if e.Arr? {
      var updated, done := SetInList(e.elems, p[1..], v);
      e, ok := Arr(updated), done;
    } else {
      e, ok := SetIn(e, p[1..], v);
    }
    if !ok && |l| > |list| { return list, false; }
    after := l[idx := e];
  }

  /** deleteIn: removes below a map. */
  method DeleteIn(container: Json, p: FieldPath.Path) returns (after: Json, removed: bool)
    requires p != [] && !container.Arr?
    ensures FieldPath.Edit(after, removed) == FieldPath.DeleteAt(container, p)
    decreases |p|
  {
    var seg := p[0];
    if !seg.IsField() || !container.Obj? || seg.name !in container.fields { return container, false; }
    var m := container.fields;
    if |p| == 1 {
      m := m - {seg.name};
      return Obj(m), true;
    }
    var child := m[seg.name];
    if child.Arr? {
      var updated, done := DeleteInList(child.elems, p[1..]);
      child, removed := Arr(updated), done;
    } else {
      child, removed := DeleteIn(child, p[1..]);
    }
    after := Obj(m[seg.name := child]);
  }

  method DeleteInList(list: seq<Json>, p: FieldPath.Path) returns (after: seq<Json>, removed: bool)
    requires p != []
    ensures FieldPath.Edit(Arr(after), removed) == FieldPath.DeleteAt(Arr(list), p)
    decreases |p|
  {
    var seg := p[0];
    var idx := -1;
    if seg.IsIndex() {
      idx := seg.i;
    } else if seg.IsKeyMatch() {
      idx := FindByKeyLoop(list, seg.key, seg.val);
    }
    if !(0 <= idx < |list|) { return list, false; }
    if |p| == 1 {
      return list[..idx] + list[idx + 1..], true;
    }
    var e := list[idx];
    if e.Arr? {
      var updated, done := DeleteInList(e.elems, p[1..]);
      e, removed := Arr(updated), done;
    } else {
      e, removed := DeleteIn(e, p[1..]);
    }
    after := list[idx := e];
  }

  /** The unstructured object: a mutable map of fields. */
  class Document {
    var root: map<string, Json>

    constructor (fields: map<string, Json>)
      ensures root == fields
    {
      root := fields;
    }

    function Tree(): Json
      reads this
    {
      Obj(root)
    }

    method Get(p: FieldPath.Path) returns (r: Option<Json>)
      ensures r == FieldPath.Get(Tree(), p)
    {
      var cur := Obj(root);
      var i := 0;
      while i < |p|
        invariant 0 <= i <= |p|
        invariant FieldPath.Get(Tree(), p) == FieldPath.Get(cur, p[i..])
      {
        var seg := p[i];
        assert p[i..][0] == seg && p[i..][1..] == p[i + 1..];
        if seg.IsField() {
          if !cur.Obj? || seg.name !in cur.fields { return None; }
          cur := cur.fields[seg.name];
        } else if seg.IsIndex() {
          if !cur.Arr? || seg.i >= |cur.elems| { return None; }
          cur := cur.elems[seg.i];
        } else if seg.IsKeyMatch() {
          if !cur.Arr? { return None; }
          var idx := FindByKeyLoop(cur.elems, seg.key, seg.val);
          if idx < 0 { return None; }
          cur := cur.elems[idx];
        }
        i := i + 1;
      }
      return Some(cur);
    }

    method Set(p: FieldPath.Path, v: Json) returns (ok: bool)
      modifies this
      ensures FieldPath.Edit(Tree(), ok) == FieldPath.Set(old(Tree()), p, v)
    {
      if p == [] || !p[0].IsField() {
        return false;
      }
      FieldPath.EditsKeepKind(Tree(), p, v);
      var tree, done := SetIn(Obj(root), p, v);
      root, ok := tree.fields, done;
    }

    method Delete(p: FieldPath.Path) returns (removed: bool)
      modifies this
      ensures FieldPath.Edit(Tree(), removed) == FieldPath.Delete(old(Tree()), p)
    {
      if p == [] {
        return false;
      }
      FieldPath.EditsKeepKind(Tree(), p, Null);
      var tree, done := DeleteIn(Obj(root), p);
      root, removed := tree.fields, done;
      if removed {
        PruneEmpty(p);
      }
    }

    method PruneEmpty(p: FieldPath.Path)
      requires p != []
      modifies this
      ensures Tree() == FieldPath.PruneFrom(old(Tree()), p, |p| - 1)
    {
      var i := |p| - 1;
      while i > 0
        invariant 0 <= i < |p|
        invariant FieldPath.PruneFrom(Tree(), p, i) == FieldPath.PruneFrom(old(Tree()), p, |p| - 1)
      {
        var v := Get(p[..i]);
        if v.Some? {
          if v.value != EMPTY { return; }
          FieldPath.EditsKeepKind(Tree(), p[..i], Null);
          var tree, done := DeleteIn(Obj(root), p[..i]);
          root := tree.fields;
          if !done { return; }
        }
        i := i - 1;
      }
    }
  }
}
