/**
 * Edits on a parsed JSON document: what a planned edit does to the value.
 * The byte layout of the file is not part of this model.
 */
module JsonEdit {
  import opened Options

  datatype Json =
    | Null
    | Bool(b: bool)
    | Num(n: int)
    | Str(s: string)
    | Arr(items: seq<Json>)
    | Obj(members: map<string, Json>)

  datatype Seg = Key(name: string) | Index(at: nat)

  type Path = seq<Seg>

  datatype Prune = Never | Emptied

  datatype Edit =
    | Set(path: Path, value: Json)
    | Push(path: Path, value: Json)
    | Remove(path: Path, prune: Prune)

  function Child(v: Json, seg: Seg): Option<Json> {
    match seg
    case Key(k) => if v.Obj? && k in v.members then Some(v.members[k]) else None
    case Index(i) => if v.Arr? && i < |v.items| then Some(v.items[i]) else None
  }

  function Get(v: Json, path: Path): Option<Json> {
    if path == [] then Some(v)
    else match Child(v, path[0])
         case Some(c) => Get(c, path[1..])
         case None => None
  }

  function WithChild(v: Json, seg: Seg, c: Json): Json
    requires Child(v, seg).Some?
  {
    match seg
    case Key(k) => Obj(v.members[k := c])
    case Index(i) => Arr(v.items[i := c])
  }

  /** The value with what stands at an existing path replaced. */
  function Put(v: Json, path: Path, x: Json): Json
    requires Get(v, path).Some?
  {
    if path == [] then x
    else WithChild(v, path[0], Put(Child(v, path[0]).value, path[1..], x))
  }

  /** The objects a missing tail of a path needs; an index cannot be created. */
  function Build(rest: Path, leaf: Json): Result<Json> {
    if rest == [] then Ok(leaf)
    else if rest[0].Index? then Err
    else match Build(rest[1..], leaf)
         case Ok(v) => Ok(Obj(map[rest[0].name := v]))
         case Err => Err
  }

  /** A `Set`, or with `push` an append: missing parent objects are created. */
  function Write(v: Json, path: Path, value: Json, push: bool): Result<Json> {
    if path == [] then
      if !push then Ok(value)
      else if v.Arr? then Ok(Arr(v.items + [value]))
      else Err
    else
      match path[0]
      case Key(k) =>
        if !v.Obj? then Err
        else
          var c :=
            if k in v.members then Write(v.members[k], path[1..], value, push)
            else Build(path[1..], if push then Arr([value]) else value);
          if c.Ok? then Ok(Obj(v.members[k := c.value])) else Err
      case Index(i) =>
        if !v.Arr? || i >= |v.items| then Err
        else
          var c := Write(v.items[i], path[1..], value, push);
          if c.Ok? then Ok(Arr(v.items[i := c.value])) else Err
  }

  function Without(v: Json, seg: Seg): Json
    requires Child(v, seg).Some?
  {
    match seg
    case Key(k) => Obj(v.members - {k})
    case Index(i) => Arr(v.items[..i] + v.items[i + 1..])
  }

  predicate IsEmpty(v: Json) {
    (v.Obj? && v.members == map[]) || (v.Arr? && v.items == [])
  }

  /** Deleting an existing value, its containers left alone. */
  function Cut(v: Json, path: Path): Json
    requires path != [] && Get(v, path).Some?
    decreases path
  {
    if |path| == 1 then Without(v, path[0])
    else WithChild(v, path[0], Cut(Child(v, path[0]).value, path[1..]))
  }

  /** A `Remove`: a missing path is no change, and `Emptied` walks up over the containers left empty, the top level excepted. */
  function Take(v: Json, path: Path, prune: Prune): Json
    decreases |path|
  {
    if path == [] || Get(v, path).None? then v
    else
      var cut := Cut(v, path);
      var parent := path[..|path| - 1];
      var left := Get(cut, parent);
      if prune.Emptied? && parent != [] && left.Some? && IsEmpty(left.value) then Take(cut, parent, prune)
      else cut
  }

  function ApplyEdit(v: Json, edit: Edit): Result<Json> {
    match edit
    case Set(path, value) => Write(v, path, value, false)
    case Push(path, value) => Write(v, path, value, true)
    case Remove(path, prune) => Ok(Take(v, path, prune))
  }

  function ApplyEdits(v: Json, edits: seq<Edit>): Result<Json>
    decreases |edits|
  {
    if edits == [] then Ok(v)
    else match ApplyEdit(v, edits[0])
         case Ok(w) => ApplyEdits(w, edits[1..])
         case Err => Err
  }

  /** Every edit's path still leads to what it led to in `plan`, the document the edits were planned on. */
  ghost predicate Addresses(plan: Json, v: Json, edits: seq<Edit>)
    decreases |edits|
  {
    edits != [] ==>
      && Get(v, edits[0].path).Some? && Get(v, edits[0].path) == Get(plan, edits[0].path)
      && ApplyEdit(v, edits[0]).Ok?
      && Addresses(plan, ApplyEdit(v, edits[0]).value, edits[1..])
  }

  lemma {:induction false} ApplyAppend(plan: Json, v: Json, a: seq<Edit>, b: seq<Edit>)
    requires ApplyEdits(v, a).Ok?
    ensures ApplyEdits(v, a + b) == ApplyEdits(ApplyEdits(v, a).value, b)
    ensures Addresses(plan, v, a) && Addresses(plan, ApplyEdits(v, a).value, b) ==> Addresses(plan, v, a + b)
    decreases |a|
  {
    if a == [] {
      assert a + b == b;
    } else {
      assert (a + b)[0] == a[0] && (a + b)[1..] == a[1..] + b;
      ApplyAppend(plan, ApplyEdit(v, a[0]).value, a[1..], b);
    }
  }

  // ----- paths through an existing container

  lemma {:induction false} GetThrough(v: Json, path: Path, rest: Path)
    requires Get(v, path).Some?
    ensures Get(v, path + rest) == Get(Get(v, path).value, rest)
  {
    if path == [] {
      assert path + rest == rest;
    } else {
      assert (path + rest)[1..] == path[1..] + rest;
      GetThrough(Child(v, path[0]).value, path[1..], rest);
    }
  }

  lemma {:induction false} GetPut(v: Json, path: Path, x: Json)
    requires Get(v, path).Some?
    ensures Get(Put(v, path, x), path) == Some(x)
  {
    if path != [] {
      GetPut(Child(v, path[0]).value, path[1..], x);
    }
  }

  lemma {:induction false} PutPut(v: Json, path: Path, x: Json, y: Json)
    requires Get(v, path).Some?
    ensures Get(Put(v, path, x), path).Some?
    ensures Put(Put(v, path, x), path, y) == Put(v, path, y)
  {
    if path != [] {
      PutPut(Child(v, path[0]).value, path[1..], x, y);
    }
  }

  lemma {:induction false} PutSame(v: Json, path: Path)
    requires Get(v, path).Some?
    ensures Put(v, path, Get(v, path).value) == v
  {
    if path != [] {
      PutSame(Child(v, path[0]).value, path[1..]);
    }
  }

  lemma {:induction false} CutThrough(v: Json, path: Path, rest: Path)
    requires Get(v, path).Some? && rest != [] && Get(Get(v, path).value, rest).Some?
    ensures Get(v, path + rest).Some?
    ensures Cut(v, path + rest) == Put(v, path, Cut(Get(v, path).value, rest))
  {
    GetThrough(v, path, rest);
    if path == [] {
      assert path + rest == rest;
    } else {
      assert (path + rest)[1..] == path[1..] + rest;
      CutThrough(Child(v, path[0]).value, path[1..], rest);
    }
  }

  lemma {:induction false} WriteThrough(v: Json, path: Path, rest: Path, value: Json, push: bool)
    requires Get(v, path).Some? && Write(Get(v, path).value, rest, value, push).Ok?
    ensures Write(v, path + rest, value, push)
         == Ok(Put(v, path, Write(Get(v, path).value, rest, value, push).value))
  {
    if path == [] {
      assert path + rest == rest;
    } else {
      assert (path + rest)[1..] == path[1..] + rest;
      WriteThrough(Child(v, path[0]).value, path[1..], rest, value, push);
    }
  }

  lemma {:induction false} PutThrough(v: Json, path: Path, rest: Path, x: Json)
    requires Get(v, path).Some? && Get(Get(v, path).value, rest).Some?
    ensures Get(v, path + rest).Some?
    ensures Put(v, path + rest, x) == Put(v, path, Put(Get(v, path).value, rest, x))
  {
    GetThrough(v, path, rest);
    if path == [] {
      assert path + rest == rest;
    } else {
      assert (path + rest)[1..] == path[1..] + rest;
      PutThrough(Child(v, path[0]).value, path[1..], rest, x);
    }
  }

  /** Removing inside a container that stays non-empty changes the container only. */
  lemma TakeInside(v: Json, path: Path, seg: Seg, prune: Prune)
    requires Get(v, path).Some? && Child(Get(v, path).value, seg).Some?
    requires prune.Emptied? ==> !IsEmpty(Without(Get(v, path).value, seg))
    ensures Take(v, path + [seg], prune) == Put(v, path, Without(Get(v, path).value, seg))
  {
    var c := Get(v, path).value;
    CutThrough(v, path, [seg]);
    GetPut(v, path, Without(c, seg));
    assert (path + [seg])[..|path + [seg]| - 1] == path;
  }

  /** Removing the last thing in a container takes the container too. */
  lemma TakeLast(v: Json, path: Path, seg: Seg)
    requires path != [] && Get(v, path).Some? && Child(Get(v, path).value, seg).Some?
    requires IsEmpty(Without(Get(v, path).value, seg))
    ensures Take(v, path + [seg], Emptied) == Take(v, path, Emptied)
  {
    var c := Get(v, path).value;
    var cut := Put(v, path, Without(c, seg));
    CutThrough(v, path, [seg]);
    GetPut(v, path, Without(c, seg));
    assert (path + [seg])[..|path + [seg]| - 1] == path;
    CutForgets(v, path, Without(c, seg));
    ParentOfCut(v, path, Without(c, seg));
  }

  /** What stands at a path does not matter to the one who deletes it. */
  lemma {:induction false} CutForgets(v: Json, path: Path, x: Json)
    requires path != [] && Get(v, path).Some?
    ensures Get(Put(v, path, x), path).Some? && Cut(Put(v, path, x), path) == Cut(v, path)
  {
    GetPut(v, path, x);
    if |path| == 1 {
      assert path == [path[0]];
      assert Put(v, path, x) == WithChild(v, path[0], x);
      WithoutForgets(v, path[0], x);
    } else {
      CutForgets(Child(v, path[0]).value, path[1..], x);
    }
  }

  lemma WithoutForgets(v: Json, seg: Seg, x: Json)
    requires Child(v, seg).Some?
    ensures Child(WithChild(v, seg, x), seg).Some? && Without(WithChild(v, seg, x), seg) == Without(v, seg)
  {
    match seg
    case Key(k) => assert v.members[k := x] - {k} == v.members - {k};
    case Index(i) =>
      assert v.items[i := x][..i] == v.items[..i] && v.items[i := x][i + 1..] == v.items[i + 1..];
  }

  lemma ParentOfCut(v: Json, path: Path, x: Json)
    requires path != [] && Get(v, path).Some?
    ensures Get(Put(v, path, x), path).Some?
    ensures Take(Put(v, path, x), path, Emptied) == Take(v, path, Emptied)
  {
    CutForgets(v, path, x);
  }
}
