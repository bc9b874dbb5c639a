/**
 Reading and writing a JSON document along a path
 (client/3rd/QJsonStruct/QJsonIO.hpp).

 A looked-up value is optional: None is Qt's undefined value, which a document
 never holds. Indexing a temporary object with a missing name yields null, as
 Qt's non-const operator[] does.
 */
module JsonPath {
  import opened Basics

  datatype Json =
    | Null
    | Bool(flag: bool)
    | Number(value: real)
    | Text(text: string)
    | Array(items: seq<Json>)
    | Object(fields: map<string, Json>)

  /** Indices that survive the round trip through QString::number and toInt. */
  type ArrayIndex = i: int | 0 <= i <= 0x7fff_ffff

  datatype Key = Index(index: ArrayIndex) | Name(name: string)

  function ToArray(v: Option<Json>): seq<Json> {
    if v.Some? && v.value.Array? then v.value.items else []
  }

  function ToObject(v: Option<Json>): map<string, Json> {
    if v.Some? && v.value.Object? then v.value.fields else map[]
  }

  function Lookup(v: Option<Json>, key: Key): Option<Json> {
    match key
    case Index(i) => if i < |ToArray(v)| then Some(ToArray(v)[i]) else None
    case Name(k) => if k in ToObject(v) then Some(ToObject(v)[k]) else Some(Null)
  }

  /** GetValue before the default is applied. */
  function Get(v: Option<Json>, path: seq<Key>): Option<Json>
    decreases |path|
  {
    if path == [] then v else Get(Lookup(v, path[0]), path[1..])
  }

  // ---------------------------------------------------------------- writing

  /** An array grown with nulls until the index fits. */
  function Grown(items: seq<Json>, i: nat): (r: seq<Json>)
    ensures |r| == if |items| <= i then i + 1 else |items|
    ensures r[..|items|] == items
    ensures forall j :: |items| <= j < |r| ==> r[j] == Null
  {
    if |items| <= i then items + seq(i + 1 - |items|, _ => Null) else items
  }

  /** The node taken for the kind of container the key addresses, with the key set in it. */
  function Store(node: Option<Json>, key: Key, child: Json): Json {
    match key
    case Index(i) => Array(Grown(ToArray(node), i)[i := child])
    case Name(k) => Object(ToObject(node)[k := child])
  }

  /** What the two loops of the path-based SetValue build, from the leaf upwards. */
  function Rebuild(node: Option<Json>, val: Json, path: seq<Key>): Json
    decreases |path|
  {
    if path == [] then val
    else Store(node, path[0], Rebuild(Lookup(node, path[0]), val, path[1..]))
  }

  predicate IsContainer(v: Json) { v.Array? || v.Object? }

  /** A key addresses a container of its own kind. */
  predicate Matches(v: Json, key: Key) { if key.Index? then v.Array? else v.Object? }

  /** The final conversion of the path-based SetValue back to the type of the parent. */
  function ConvertLike(parent: Json, v: Json): Json {
    if parent.Object? then Object(ToObject(Some(v))) else Array(ToArray(Some(v)))
  }

  function SetByPath(parent: Json, val: Json, path: seq<Key>): Json {
    ConvertLike(parent, Rebuild(Some(parent), val, path))
  }

  /** A value taken as the kind of container the key addresses. */
  function AsContainerFor(v: Option<Json>, key: Key): Json {
    if key.Index? then Array(ToArray(v)) else Object(ToObject(v))
  }

  /** The variadic SetValue: grow, descend into the child taken as the next key's kind, write back. */
  function SetRecursively(parent: Json, val: Json, path: seq<Key>): Json
    requires path != [] && Matches(parent, path[0])
    decreases |path|
  {
    var grown := if path[0].Index? then Array(Grown(parent.items, path[0].index)) else parent;
    var child := if |path| == 1 then val
                 else SetRecursively(AsContainerFor(Lookup(Some(grown), path[0]), path[1]), val, path[1..]);
    if path[0].Index? then Array(grown.items[path[0].index := child])
    else Object(grown.fields[path[0].name := child])
  }

  // ---------------------------------------------------------------- the two writers agree

  /** Only the container kind of the first key matters to a rebuild. */
  lemma RebuildSeesContainerOnly(v: Option<Json>, w: Option<Json>, val: Json, path: seq<Key>)
    requires path != [] && AsContainerFor(v, path[0]) == AsContainerFor(w, path[0])
    ensures Rebuild(v, val, path) == Rebuild(w, val, path)
  {
  }

  /** A lookup in a grown array and in the array itself lead to the same container. */
  lemma GrownLookup(parent: Json, key: Key, next: Key)
    requires Matches(parent, key)
    ensures var grown := if key.Index? then Array(Grown(parent.items, key.index)) else parent;
            AsContainerFor(Lookup(Some(grown), key), next) == AsContainerFor(Lookup(Some(parent), key), next)
  {
    if key.Index? && key.index < |parent.items| {
      assert Grown(parent.items, key.index)[..|parent.items|][key.index] == parent.items[key.index];
    }
  }

  lemma {:induction false} RecursiveIsRebuild(parent: Json, val: Json, path: seq<Key>)
    requires path != [] && Matches(parent, path[0])
    ensures SetRecursively(parent, val, path) == Rebuild(Some(parent), val, path)
    decreases |path|
  {
    if |path| > 1 {
      var grown := if path[0].Index? then Array(Grown(parent.items, path[0].index)) else parent;
      var child := AsContainerFor(Lookup(Some(grown), path[0]), path[1]);
      RecursiveIsRebuild(child, val, path[1..]);
      GrownLookup(parent, path[0], path[1]);
      RebuildSeesContainerOnly(Some(child), Lookup(Some(parent), path[0]), val, path[1..]);
    }
  }

  /** For every path whose first key fits the root, the two writers compute the same document. */
  lemma WritersAgree(parent: Json, val: Json, path: seq<Key>)
    requires path != [] && Matches(parent, path[0])
    ensures SetByPath(parent, val, path) == SetRecursively(parent, val, path)
  {
    RecursiveIsRebuild(parent, val, path);
  }

  /**
   The path-based writer stores what it built if and only if the first key fits
   the root; otherwise it erases the whole document.
   */
  lemma RootKindDecides(parent: Json, val: Json, path: seq<Key>)
    requires path != [] && IsContainer(parent)
    ensures SetByPath(parent, val, path) == Rebuild(Some(parent), val, path) <==> Matches(parent, path[0])
    ensures !Matches(parent, path[0]) ==>
              SetByPath(parent, val, path) == if parent.Object? then Object(map[]) else Array([])
  {
  }

  // ---------------------------------------------------------------- lens laws

  /** Every key of the path addresses an entry that is there. */
  predicate Exists(v: Json, path: seq<Key>) {
    path == [] ||
    (match path[0]
     case Index(i) => v.Array? && i < |v.items| && Exists(v.items[i], path[1..])
     case Name(k) => v.Object? && k in v.fields && Exists(v.fields[k], path[1..]))
  }

  /** The paths part at two different entries of one container. */
  predicate Diverge(p: seq<Key>, q: seq<Key>) {
    p != [] && q != [] &&
    if p[0] == q[0] then Diverge(p[1..], q[1..]) else p[0].Index? == q[0].Index?
  }

  lemma StoreLookup(node: Option<Json>, key: Key, child: Json)
    ensures Lookup(Some(Store(node, key, child)), key) == Some(child)
  {
  }

  lemma StoreElsewhere(v: Json, key: Key, other: Key, child: Json)
    requires key != other && key.Index? == other.Index? && Exists(v, [other])
    ensures Lookup(Some(Store(Some(v), key, child)), other) == Lookup(Some(v), other)
  {
    if key.Index? {
      assert Grown(v.items, key.index)[..|v.items|][other.index] == v.items[other.index];
    }
  }

  lemma StoreTwice(node: Option<Json>, key: Key, first: Json, second: Json)
    ensures Store(Some(Store(node, key, first)), key, second) == Store(node, key, second)
  {
    if key.Index? {
      var g := Grown(ToArray(node), key.index);
      assert g[key.index := first][key.index := second] == g[key.index := second];
    }
  }

  /** Put-get: what was written is what is read, on every document and path. */
  lemma {:induction false} PutGet(node: Option<Json>, val: Json, path: seq<Key>)
    ensures Get(Some(Rebuild(node, val, path)), path) == Some(val)
    decreases |path|
  {
    if path != [] {
      var child := Rebuild(Lookup(node, path[0]), val, path[1..]);
      StoreLookup(node, path[0], child);
      PutGet(Lookup(node, path[0]), val, path[1..]);
    }
  }

  /** Put-put: the second of two writes to one path is the one that counts. */
  lemma {:induction false} PutPut(node: Option<Json>, first: Json, second: Json, path: seq<Key>)
    ensures Rebuild(Some(Rebuild(node, first, path)), second, path) == Rebuild(node, second, path)
    decreases |path|
  {
    if path != [] {
      var down := Lookup(node, path[0]);
      var one, two := Rebuild(down, first, path[1..]), Rebuild(down, second, path[1..]);
      StoreLookup(node, path[0], one);
      PutPut(down, first, second, path[1..]);
      StoreTwice(node, path[0], one, two);
    }
  }

  lemma {:induction false} ExistingIsDefined(v: Json, path: seq<Key>)
    requires Exists(v, path)
    ensures Get(Some(v), path).Some?
    decreases |path|
  {
    if path != [] {
      var down := Lookup(Some(v), path[0]);
      ExistingIsDefined(down.value, path[1..]);
    }
  }

  /** Get-put: writing back what is there changes nothing. */
  lemma {:induction false} GetPut(v: Json, path: seq<Key>)
    requires Exists(v, path)
    ensures Get(Some(v), path).Some?
    ensures Rebuild(Some(v), Get(Some(v), path).value, path) == v
    decreases |path|
  {
    ExistingIsDefined(v, path);
    if path != [] {
      var down := Lookup(Some(v), path[0]);
      GetPut(down.value, path[1..]);
      if path[0].Index? {
        assert v.items[path[0].index := down.value] == v.items;
        assert Grown(v.items, path[0].index) == v.items;
      } else {
        assert v.fields[path[0].name := down.value] == v.fields;
      }
    }
  }

  /** Frame: a write leaves every existing entry alone that parts from its path inside one container. */
  lemma {:induction false} WriteLeavesOthersAlone(v: Json, val: Json, p: seq<Key>, q: seq<Key>)
    requires Exists(v, q) && Diverge(p, q)
    ensures Get(Some(Rebuild(Some(v), val, p)), q) == Get(Some(v), q)
    decreases |p|
  {
    var down := Lookup(Some(v), p[0]);
    var child := Rebuild(down, val, p[1..]);
    if p[0] == q[0] {
      StoreLookup(Some(v), p[0], child);
      WriteLeavesOthersAlone(down.value, val, p[1..], q[1..]);
    } else {
      assert Exists(v, [q[0]]);
      StoreElsewhere(v, p[0], q[0], child);
    }
  }

  // ---------------------------------------------------------------- the loops

  lemma {:induction false} GetOneMore(v: Option<Json>, path: seq<Key>, key: Key)
    ensures Get(v, path + [key]) == Lookup(Get(v, path), key)
    decreases |path|
  {
    if path != [] {
      assert (path + [key])[1..] == path[1..] + [key];
      GetOneMore(Lookup(v, path[0]), path[1..], key);
    } else {
      assert (path + [key])[1..] == [];
    }
  }

  method GetValue(parent: Json, path: seq<Key>, defaultValue: Option<Json>) returns (r: Option<Json>)
    ensures r == var found := Get(Some(parent), path); if found.Some? then found else defaultValue
  {
    var val := Some(parent);
    for i := 0 to |path|
      invariant val == Get(Some(parent), path[..i])
    {
      GetOneMore(Some(parent), path[..i], path[i]);
      assert path[..i+1] == path[..i] + [path[i]];
      match path[i]
      case Index(k) => val := if k < |ToArray(val)| then Some(ToArray(val)[k]) else None;
      case Name(k) => val := if k in ToObject(val) then Some(ToObject(val)[k]) else Some(Null);
    }
    assert path[..|path|] == path;
    r := if val.None? then defaultValue else val;
  }

  /** Inserts nulls at the end until the index fits. */
  method GrowArray(items: seq<Json>, index: nat) returns (grown: seq<Json>)
    ensures grown == Grown(items, index)
  {
    grown := items;
    var i := |items|;
    while i <= index
      invariant |items| <= i && |grown| == i && grown[..|items|] == items && (i > |items| ==> i <= index + 1)
      invariant forall j :: |items| <= j < i ==> grown[j] == Null
    {
      grown := grown + [Null];
      i := i + 1;
    }
  }

  /** One entry of the explicit stack: a key and the node it was applied to. */
  datatype StackEntry = StackEntry(key: Key, node: Option<Json>)

  /** The stack holds the keys of the path with the nodes they were applied to, the last key first. */
  ghost predicate StackOf(stack: seq<StackEntry>, parent: Json, path: seq<Key>) {
    |stack| == |path| &&
    forall j :: 0 <= j < |path| ==>
      stack[j] == StackEntry(path[|path|-1-j], Get(Some(parent), path[..|path|-1-j]))
  }

  lemma StackGrows(stack: seq<StackEntry>, parent: Json, path: seq<Key>, key: Key)
    requires StackOf(stack, parent, path)
    ensures StackOf([StackEntry(key, Get(Some(parent), path))] + stack, parent, path + [key])
  {
    var longer := path + [key];
    forall j | 0 <= j < |longer|
      ensures ([StackEntry(key, Get(Some(parent), path))] + stack)[j]
           == StackEntry(longer[|longer|-1-j], Get(Some(parent), longer[..|longer|-1-j]))
    {
      assert longer[..|longer|-1-j] == path[..|path|-j];
      if j == 0 { assert path[..|path|] == path; }
    }
  }

  lemma RebuildOneUp(parent: Json, t: Json, path: seq<Key>, at: nat)
    requires at < |path|
    ensures Rebuild(Get(Some(parent), path[..at]), t, path[at..])
         == Store(Get(Some(parent), path[..at]), path[at], Rebuild(Get(Some(parent), path[..at+1]), t, path[at+1..]))
  {
    GetOneMore(Some(parent), path[..at], path[at]);
    assert path[..at+1] == path[..at] + [path[at]] && path[at..][1..] == path[at+1..];
  }

  method SetValue(parent: Json, t: Json, path: seq<Key>) returns (r: Json)
    requires IsContainer(parent)
    ensures r == SetByPath(parent, t, path)
  {
    hide Rebuild, Get, Lookup, Grown;
    var stack: seq<StackEntry> := [];
    var lastNode := Some(parent);
    assert lastNode == Get(Some(parent), path[..0]) by { GetNothing(Some(parent)); }
    for i := 0 to |path|
      invariant StackOf(stack, parent, path[..i]) && lastNode == Get(Some(parent), path[..i])
    {
      StackGrows(stack, parent, path[..i], path[i]);
      GetOneMore(Some(parent), path[..i], path[i]);
      assert path[..i+1] == path[..i] + [path[i]];
      stack := [StackEntry(path[i], lastNode)] + stack;
      lastNode := Lookup(lastNode, path[i]);
    }
    assert path[..|path|] == path && path[|path|..] == [];

    var built := t;
    RebuildNothing(Get(Some(parent), path), t);
    for m := 0 to |stack|
      invariant built == Rebuild(Get(Some(parent), path[..|path|-m]), t, path[|path|-m..])
    {
      var StackEntry(key, node) := stack[m];
      RebuildOneUp(parent, t, path, |path|-1-m);
      match key {
        case Index(index) =>
          var nodeArray := GrowArray(ToArray(node), index);
          built := Array(nodeArray[index := built]);
        case Name(name) =>
          built := Object(ToObject(node)[name := built]);
      }
    }
    assert path[..0] == [] && path[0..] == path;
    GetNothing(Some(parent));
    r := if parent.Object? then Object(ToObject(Some(built))) else Array(ToArray(Some(built)));
  }

  lemma GetNothing(v: Option<Json>)
    ensures Get(v, []) == v
  {
  }

  lemma RebuildNothing(v: Option<Json>, t: Json)
    ensures Rebuild(v, t, []) == t
  {
  }

  /** The lens laws hold of the writer as it is called, on every root the first key fits. */
  lemma WriterIsALens(parent: Json, first: Json, second: Json, path: seq<Key>)
    requires path != [] && Matches(parent, path[0])
    ensures Get(Some(SetByPath(parent, first, path)), path) == Some(first)
    ensures SetByPath(SetByPath(parent, first, path), second, path) == SetByPath(parent, second, path)
    ensures Exists(parent, path) ==>
              Get(Some(parent), path).Some? && SetByPath(parent, Get(Some(parent), path).value, path) == parent
  {
    PutGet(Some(parent), first, path);
    PutPut(Some(parent), first, second, path);
    if Exists(parent, path) { GetPut(parent, path); }
  }
}
