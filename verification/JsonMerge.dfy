/** The recursive merge that overlays local configuration on rendered configuration. */
module JsonMerge {
  import opened Seqs

  datatype Json =
    | Null
    | Bool(b: bool)
    | Number(n: int)
    | Text(s: string)
    | Array(items: seq<Json>)
    | Object(fields: map<string, Json>)

  /** Objects are merged key by key; in every other case the source replaces the target. */
  function Merge(target: Json, source: Json): Json
    decreases source
  {
    if target.Object? && source.Object? then
      Object(map k | k in target.fields.Keys + source.fields.Keys ::
               if k !in source.fields then target.fields[k]
               else if k !in target.fields then source.fields[k]
               else Merge(target.fields[k], source.fields[k]))
    else source
  }

  /** The loop over the source keys reaches the same result in whatever order the keys come. */
  method MergeJsonObjects(target: Json, source: Json) returns (result: Json)
    ensures result == Merge(target, source)
    decreases source
  {
    if !(target.Object? && source.Object?) { return source; }
    var fields := target.fields;
    var order := SomeOrder(source.fields.Keys);
    for i := 0 to |order|
      invariant fields.Keys == target.fields.Keys + set k | k in order[..i]
      invariant forall k :: k in target.fields && k !in order[..i] ==> fields[k] == target.fields[k]
      invariant forall k :: k in order[..i] ==> fields[k] == Merge(target, source).fields[k]
    {
      var key := order[i];
      assert order[..i + 1] == order[..i] + [key];
      assert key in source.fields.Keys;
      var value := source.fields[key];
      assert key !in order[..i];
      if key in fields {
        if fields[key].Object? && value.Object? {
          var merged := MergeJsonObjects(fields[key], value);
          fields := fields[key := merged];
        } else {
          fields := fields[key := value];
        }
      } else {
        fields := fields[key := value];
      }
    }
    assert order[..|order|] == order;
    result := Object(fields);
    assert fields == Merge(target, source).fields;
  }

  // ---- The path law ----

  ghost function Lookup(j: Json, path: seq<string>): Option<Json>
    decreases |path|
  {
    if path == [] then Some(j)
    else if j.Object? && path[0] in j.fields then Lookup(j.fields[path[0]], path[1..])
    else None
  }

  /** Somewhere strictly above the end of the path, `j` has a value that is not an object. */
  ghost predicate Blocks(j: Json, path: seq<string>)
    decreases |path|
  {
    path != [] && (j.Object? ==> path[0] in j.fields && Blocks(j.fields[path[0]], path[1..]))
  }

  lemma {:induction false} BlockedIsAbsent(j: Json, path: seq<string>)
    requires Blocks(j, path)
    ensures Lookup(j, path).None?
    decreases |path|
  {
    if j.Object? { BlockedIsAbsent(j.fields[path[0]], path[1..]); }
  }

  /** What the merge holds at a path: a source leaf wins, and where the source is silent the target survives. */
  lemma {:induction false} PathLaw(target: Json, source: Json, path: seq<string>)
    ensures Lookup(Merge(target, source), path) ==
            if Blocks(source, path) then None
            else match Lookup(source, path)
                 case None => Lookup(target, path)
                 case Some(s) =>
                   match Lookup(target, path)
                   case Some(t) => Some(Merge(t, s))
                   case None => Some(s)
    decreases |path|
  {
    if Blocks(source, path) { BlockedIsAbsent(source, path); }
    if path != [] && source.Object? && target.Object? && path[0] in source.fields && path[0] in target.fields {
      PathLaw(target.fields[path[0]], source.fields[path[0]], path[1..]);
    }
  }

  lemma {:induction false} MergeIdempotent(target: Json, source: Json)
    ensures Merge(Merge(target, source), source) == Merge(target, source)
    decreases source
  {
    if target.Object? && source.Object? {
      var once := Merge(target, source);
      forall k | k in once.fields ensures Merge(once, source).fields[k] == once.fields[k] {
        if k in source.fields {
          if k in target.fields {
            MergeIdempotent(target.fields[k], source.fields[k]);
          } else {
            MergeSelf(source.fields[k]);
          }
        }
      }
      assert Merge(once, source).fields == once.fields;
    } else {
      MergeSelf(source);
    }
  }

  lemma {:induction false} MergeSelf(j: Json)
    ensures Merge(j, j) == j
    decreases j
  {
    if j.Object? {
      forall k | k in j.fields ensures Merge(j.fields[k], j.fields[k]) == j.fields[k] { MergeSelf(j.fields[k]); }
      assert Merge(j, j).fields == j.fields;
    }
  }

  // ---- Associativity ----

  /** Overlaying `c` on `a` leaves nothing of `a` behind. */
  ghost predicate Covered(a: Json, c: Json)
    decreases c
  {
    a.Object? && c.Object? ==> forall k :: k in a.fields ==> k in c.fields && Covered(a.fields[k], c.fields[k])
  }

  lemma {:induction false} CoveredVanishes(a: Json, c: Json)
    ensures Merge(a, c) == c <==> Covered(a, c)
    decreases c
  {
    if a.Object? && c.Object? {
      forall k | k in a.fields && k in c.fields
        ensures Merge(a.fields[k], c.fields[k]) == c.fields[k] <==> Covered(a.fields[k], c.fields[k])
      {
        CoveredVanishes(a.fields[k], c.fields[k]);
      }
      if Covered(a, c) {
        assert Merge(a, c).fields == c.fields;
      } else {
        var k :| k in a.fields && !(k in c.fields && Covered(a.fields[k], c.fields[k]));
        assert k in Merge(a, c).fields;
      }
    }
  }

  /** At this path an object, then a value that is not one, then an object that does not cover the first. */
  ghost predicate ClashAt(a: Json, b: Json, c: Json, path: seq<string>) {
    var x, y, z := Lookup(a, path), Lookup(b, path), Lookup(c, path);
    x.Some? && y.Some? && z.Some? && x.value.Object? && !y.value.Object? && z.value.Object? && !Covered(x.value, z.value)
  }

  ghost predicate Associates(a: Json, b: Json, c: Json) { Merge(Merge(a, b), c) == Merge(a, Merge(b, c)) }

  lemma {:induction false} ClashBreaks(a: Json, b: Json, c: Json, path: seq<string>)
    requires ClashAt(a, b, c, path)
    ensures !Associates(a, b, c)
    decreases |path|
  {
    if path == [] {
      CoveredVanishes(a, c);
    } else {
      var k := path[0];
      ClashBreaks(a.fields[k], b.fields[k], c.fields[k], path[1..]);
      assert Merge(Merge(a, b), c).fields[k] == Merge(Merge(a.fields[k], b.fields[k]), c.fields[k]);
      assert Merge(a, Merge(b, c)).fields[k] == Merge(a.fields[k], Merge(b.fields[k], c.fields[k]));
    }
  }

  lemma ClashBelow(a: Json, b: Json, c: Json, k: string, path: seq<string>)
    requires a.Object? && b.Object? && c.Object? && k in a.fields && k in b.fields && k in c.fields
    ensures ClashAt(a, b, c, [k] + path) <==> ClashAt(a.fields[k], b.fields[k], c.fields[k], path)
  {
    assert ([k] + path)[1..] == path;
  }

  lemma {:induction false} NoClashAssociates(a: Json, b: Json, c: Json)
    requires forall path :: !ClashAt(a, b, c, path)
    ensures Associates(a, b, c)
    decreases c
  {
    if a.Object? && b.Object? && c.Object? {
      forall k | k in a.fields && k in b.fields && k in c.fields
        ensures Associates(a.fields[k], b.fields[k], c.fields[k])
      {
        forall path ensures !ClashAt(a.fields[k], b.fields[k], c.fields[k], path) { ClashBelow(a, b, c, k, path); }
        NoClashAssociates(a.fields[k], b.fields[k], c.fields[k]);
      }
      assert Merge(Merge(a, b), c).fields == Merge(a, Merge(b, c)).fields;
    } else if c.Object? && !b.Object? {
      assert !ClashAt(a, b, c, []);
      CoveredVanishes(a, c);
    }
  }

  /** The merge of three values is associative exactly when no path carries a clash. */
  lemma MergeAssociativeIff(a: Json, b: Json, c: Json)
    ensures Merge(Merge(a, b), c) == Merge(a, Merge(b, c)) <==> forall path :: !ClashAt(a, b, c, path)
  {
    if forall path :: !ClashAt(a, b, c, path) {
      NoClashAssociates(a, b, c);
    } else {
      var path :| ClashAt(a, b, c, path);
      ClashBreaks(a, b, c, path);
    }
  }

  /** A concrete clash: the middle value hides what the first one had. */
  lemma MergeNotAssociative()
    ensures var a := Object(map["x" := Object(map["y" := Number(1)])]);
            var b := Object(map["x" := Number(1)]);
            var c := Object(map["x" := Object(map["z" := Number(2)])]);
            Merge(Merge(a, b), c) != Merge(a, Merge(b, c))
  {
    var a := Object(map["x" := Object(map["y" := Number(1)])]);
    var b := Object(map["x" := Number(1)]);
    var c := Object(map["x" := Object(map["z" := Number(2)])]);
    assert ["x"][1..] == [];
    assert "y" in a.fields["x"].fields && "y" !in c.fields["x"].fields;
    assert ClashAt(a, b, c, ["x"]);
    ClashBreaks(a, b, c, ["x"]);
  }
}
