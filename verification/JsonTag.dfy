/** tagJSONValue in internal/daemon/oauth_worktree.go, on a decoded JSON document. */
module JsonTag {
  import opened Text
  import opened Urls
  import opened OAuthState

  /** Numbers, booleans and null are all just leaves here. */
  datatype Json = Str(text: string) | Arr(items: seq<Json>) | Obj(fields: map<string, Json>) | Other(raw: string)

  /** One step into a document, and the subdocument at a path. */
  datatype Step = Index(i: nat) | Key(k: string)

  function Child(v: Json, step: Step): (r: Option<Json>)
    ensures r.Some? ==> r.value < v
  {
    match (v, step)
    case (Arr(items), Index(i)) => if i < |items| then Some(items[i]) else None
    case (Obj(fields), Key(k)) => if k in fields then Some(fields[k]) else None
    case _ => None
  }

  function At(v: Json, path: seq<Step>): Option<Json> {
    if path == [] then Some(v)
    else if Child(v, path[0]).None? then None
    else At(Child(v, path[0]).value, path[1..])
  }

  /** The document with `f` applied to every string value; keys and everything else stay. */
  ghost function MapLeaves(f: string -> string, v: Json): Json {
    match v
    case Str(s) => Str(f(s))
    case Arr(items) => Arr(seq(|items|, i requires 0 <= i < |items| => MapLeaves(f, items[i])))
    case Obj(fields) => Obj(map k | k in fields :: MapLeaves(f, fields[k]))
    case Other(_) => v
  }

  /** Some string value of the document satisfies `p`. */
  ghost predicate SomeLeaf(p: string -> bool, v: Json) {
    match v
    case Str(s) => p(s)
    case Arr(items) => exists i | 0 <= i < |items| :: SomeLeaf(p, items[i])
    case Obj(fields) => exists k | k in fields :: SomeLeaf(p, fields[k])
    case Other(_) => false
  }

  ghost function Tagger(c: Codec, routeName: string, bridgePort: nat): string -> string {
    (s: string) => TagString(c, s, routeName, bridgePort)
  }

  ghost function ToTag(c: Codec, bridgePort: nat): string -> bool {
    (s: string) => Taggable(c, s, bridgePort)
  }

  method TagJSONValue(c: Codec, v: Json, routeName: string, bridgePort: nat) returns (out: Json, changed: bool)
    ensures out == MapLeaves(Tagger(c, routeName, bridgePort), v)
    ensures changed <==> SomeLeaf(ToTag(c, bridgePort), v)
    decreases v
  {
    match v {
      case Str(s) =>
        var u := c.parse(s);
        if u.None? || (u.value.scheme != "http" && u.value.scheme != "https") || u.value.host == "" {
          return v, false;
        }
        var tagged, ok := TagAuthorizeURL(c, u.value, routeName, bridgePort);
        if ok {
          return Str(tagged), true;
        }
        return v, false;
      case Obj(fields) =>
        out, changed := TagFields(c, v, routeName, bridgePort);
      case Arr(items) =>
        out, changed := TagItems(c, v, routeName, bridgePort);
      case Other(_) =>
        return v, false;
    }
  }

  /** The loop over a slice: an element is written only when something below it changed. */
  method TagItems(c: Codec, v: Json, routeName: string, bridgePort: nat) returns (out: Json, changed: bool)
    requires v.Arr?
    ensures out == MapLeaves(Tagger(c, routeName, bridgePort), v)
    ensures changed <==> SomeLeaf(ToTag(c, bridgePort), v)
    decreases v, 0
  {
    ghost var f, p := Tagger(c, routeName, bridgePort), ToTag(c, bridgePort);
    var items := v.items;
    changed := false;
    var i := 0;
    while i < |items|
      invariant 0 <= i <= |items| == |v.items|
      invariant forall j | 0 <= j < i :: items[j] == MapLeaves(f, v.items[j])
      invariant forall j | i <= j < |items| :: items[j] == v.items[j]
      invariant changed <==> exists j | 0 <= j < i :: SomeLeaf(p, v.items[j])
    {
      var nv, ch := TagJSONValue(c, v.items[i], routeName, bridgePort);
      if ch {
        items := items[i := nv];
        changed := true;
      } else {
        Unchanged(c, v.items[i], routeName, bridgePort);
      }
      i := i + 1;
    }
    out := Arr(items);
    assert items == MapLeaves(f, v).items;
  }

  /** The loop over a map, in whatever order its keys come. */
  method TagFields(c: Codec, v: Json, routeName: string, bridgePort: nat) returns (out: Json, changed: bool)
    requires v.Obj?
    ensures out == MapLeaves(Tagger(c, routeName, bridgePort), v)
    ensures changed <==> SomeLeaf(ToTag(c, bridgePort), v)
    decreases v, 0
  {
    ghost var f, p := Tagger(c, routeName, bridgePort), ToTag(c, bridgePort);
    var fields := v.fields;
    changed := false;
    var todo := fields.Keys;
    while todo != {}
      invariant fields.Keys == v.fields.Keys && todo <= fields.Keys
      invariant forall k | k in fields && k !in todo :: fields[k] == MapLeaves(f, v.fields[k])
      invariant forall k | k in todo :: fields[k] == v.fields[k]
      invariant changed <==> exists k | k in v.fields && k !in todo :: SomeLeaf(p, v.fields[k])
    {
      var k :| k in todo;
      todo := todo - {k};
      var nv, ch := TagJSONValue(c, v.fields[k], routeName, bridgePort);
      if ch {
        fields := fields[k := nv];
        changed := true;
      } else {
        Unchanged(c, v.fields[k], routeName, bridgePort);
      }
    }
    out := Obj(fields);
    assert fields == MapLeaves(f, v).fields;
  }

  /** Without a taggable string the rewritten document is the document. */
  lemma {:induction false} Unchanged(c: Codec, v: Json, routeName: string, bridgePort: nat)
    requires !SomeLeaf(ToTag(c, bridgePort), v)
    ensures MapLeaves(Tagger(c, routeName, bridgePort), v) == v
  {
    var f := Tagger(c, routeName, bridgePort);
    match v {
      case Str(s) => assert !ToTag(c, bridgePort)(s);
      case Arr(items) =>
        forall i | 0 <= i < |items|
          ensures MapLeaves(f, items[i]) == items[i]
        {
          Unchanged(c, items[i], routeName, bridgePort);
        }
        assert MapLeaves(f, v).items == items;
      case Obj(fields) =>
        forall k | k in fields
          ensures MapLeaves(f, fields[k]) == fields[k]
        {
          Unchanged(c, fields[k], routeName, bridgePort);
        }
        assert MapLeaves(f, v).fields == fields;
      case Other(_) =>
    }
  }

  /** Mapping the leaves keeps every path, and at each path what was there, with its strings mapped. */
  lemma {:induction false} MapLeavesAt(f: string -> string, v: Json, path: seq<Step>)
    ensures At(MapLeaves(f, v), path) ==
            match At(v, path)
            case None => None
            case Some(w) => Some(MapLeaves(f, w))
    decreases |path|
  {
    if path != [] && Child(v, path[0]).Some? {
      MapLeavesAt(f, Child(v, path[0]).value, path[1..]);
    }
  }

  lemma {:induction false} SomeLeafHasPath(p: string -> bool, v: Json) returns (path: seq<Step>)
    requires SomeLeaf(p, v)
    ensures At(v, path).Some? && At(v, path).value.Str? && p(At(v, path).value.text)
  {
    match v {
      case Str(_) => path := [];
      case Arr(items) =>
        var i :| 0 <= i < |items| && SomeLeaf(p, items[i]);
        var rest := SomeLeafHasPath(p, items[i]);
        path := [Index(i)] + rest;
      case Obj(fields) =>
        var k :| k in fields && SomeLeaf(p, fields[k]);
        var rest := SomeLeafHasPath(p, fields[k]);
        path := [Key(k)] + rest;
      case Other(_) =>
    }
  }

  lemma {:induction false} PathMakesSomeLeaf(p: string -> bool, v: Json, path: seq<Step>)
    requires At(v, path).Some? && At(v, path).value.Str? && p(At(v, path).value.text)
    ensures SomeLeaf(p, v)
    decreases |path|
  {
    if path != [] {
      PathMakesSomeLeaf(p, Child(v, path[0]).value, path[1..]);
    }
  }

  /** tagJSONValue in terms of paths alone: every path leads to the same thing before and after, except
      that a string becomes its tagged form; a change is reported exactly when some string value is
      taggable, which is exactly when the document differs; and a second pass changes nothing. */
  lemma TaggingIsLeafwise(c: Codec, v: Json, routeName: string, bridgePort: nat, path: seq<Step>)
    requires Faithful(c)
    ensures var out := MapLeaves(Tagger(c, routeName, bridgePort), v);
            && (At(v, path).None? <==> At(out, path).None?)
            && (At(v, path).Some? && At(v, path).value.Str? ==>
                  At(out, path) == Some(Str(TagString(c, At(v, path).value.text, routeName, bridgePort))))
            && (At(v, path).Some? && At(v, path).value.Other? ==> At(out, path) == At(v, path))
            && (out != v <==> SomeLeaf(ToTag(c, bridgePort), v))
            && MapLeaves(Tagger(c, routeName, bridgePort), out) == out
  {
    var f, p := Tagger(c, routeName, bridgePort), ToTag(c, bridgePort);
    var out := MapLeaves(f, v);
    MapLeavesAt(f, v, path);
    if SomeLeaf(p, v) {
      var leaf := SomeLeafHasPath(p, v);
      MapLeavesAt(f, v, leaf);
      TaggedOnce(c, At(v, leaf).value.text, routeName, bridgePort);
    } else {
      Unchanged(c, v, routeName, bridgePort);
    }
    if SomeLeaf(p, out) {
      var leaf := SomeLeafHasPath(p, out);
      MapLeavesAt(f, v, leaf);
      var s := At(v, leaf).value.text;
      if Taggable(c, s, bridgePort) {
        TaggedOnce(c, s, routeName, bridgePort);
      }
      assert false;
    }
    Unchanged(c, out, routeName, bridgePort);
  }
}
