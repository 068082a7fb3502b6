/** Merging a patch into a stored document: packages/azure-services/src/storage/cosmos-container-client.ts. */
module DocumentMerge {
  import opened Common

  datatype Scalar = Text(text: string) | Number(value: int)

  /** A JSON-like value. `Undef` is an absent property. Objects hold no absent property; arrays may hold holes. */
  datatype Json =
    | Undef
    | Null
    | Leaf(scalar: Scalar)
    | Arr(items: seq<Json>)
    | Obj(fields: map<string, Json>)

  type Fields = map<string, Json>

  const ETAG := "_etag"

  function Get(fields: Fields, key: string): Json {
    if key in fields then fields[key] else Undef
  }

  function At(items: seq<Json>, i: nat): Json {
    if i < |items| then items[i] else Undef
  }

  /** The properties that have a value: writing a document drops the others. */
  function Defined(fields: Fields): Fields {
    map k | k in fields && fields[k] != Undef :: fields[k]
  }

  /** lodash `mergeWith` on one value. An undefined source is skipped; plain objects merge recursively, with a customizer
      that keeps a target's `_etag`; arrays merge by index; anything else replaces the target. An object meets an array
      only outside the documented use; the array is then kept. */
  function Merge(target: Json, source: Json): Json
    decreases source
  {
    match source
    case Undef => target
    case Null => Null
    case Leaf(_) => source
    case Arr(s) =>
      var t := if target.Arr? then target.items else [];
      Arr(seq(Max(|t|, |s|), i requires 0 <= i < Max(|t|, |s|) => if i < |s| then Merge(At(t, i), s[i]) else t[i]))
    case Obj(s) =>
      if target.Arr? then target
      else
        var t := if target.Obj? then target.fields else map[];
        Obj(Defined(map k | k in t.Keys + s.Keys ::
          if k !in s || (k == ETAG && Get(t, k) != Undef) then Get(t, k) else Merge(Get(t, k), s[k])))
  }

  /** `getNormalizeMergedDocument`: null becomes undefined in plain objects, at every depth not inside an array. */
  function Normalize(j: Json): Json {
    match j
    case Obj(fields) => Obj(map k | k in fields && fields[k] != Null && fields[k] != Undef :: Normalize(fields[k]))
    case _ => j
  }

  /** What `mergeOrWriteDocument` writes for a stored document and a patch. */
  function Apply(stored: Fields, patch: Fields): Fields {
    Normalize(Merge(Obj(stored), Obj(patch))).fields
  }

  // ----- property by property -----

  /** The fields an object patch finds in a target. */
  function FieldsOf(target: Json): Fields { if target.Obj? then target.fields else map[] }

  lemma MergeField(target: Json, source: Json, key: string)
    requires source.Obj? && !target.Arr?
    ensures Merge(target, source).Obj?
    ensures Get(Merge(target, source).fields, key)
         == var t := Get(FieldsOf(target), key);
            if key == ETAG && t != Undef then t else Merge(t, Get(source.fields, key))
  {}

  lemma NormalizeField(j: Json, key: string)
    requires j.Obj?
    ensures Normalize(j).Obj?
    ensures Get(Normalize(j).fields, key)
         == if Get(j.fields, key) == Null then Undef else Normalize(Get(j.fields, key))
  {}

  lemma {:induction false} NormalizeIdempotent(j: Json)
    ensures Normalize(Normalize(j)) == Normalize(j)
  {
    if j.Obj? {
      forall k | k in j.fields ensures Normalize(Normalize(j.fields[k])) == Normalize(j.fields[k]) {
        NormalizeIdempotent(j.fields[k]);
      }
      var once := Normalize(j).fields;
      assert forall k :: k in once ==> once[k] != Null && once[k] != Undef;
      assert Normalize(Normalize(j)).fields == once;
    }
  }

  /** Two objects with the same value under every key are equal. */
  lemma SameFields(a: Fields, b: Fields)
    requires forall k :: Get(a, k) == Get(b, k)
    requires forall k :: (k in a ==> a[k] != Undef) && (k in b ==> b[k] != Undef)
    ensures a == b
  {
    forall k ensures k in a <==> k in b {
      assert Get(a, k) == Get(b, k);
    }
    forall k | k in a ensures a[k] == b[k] {
      assert Get(a, k) == Get(b, k);
    }
  }

  // ----- applying a patch twice -----

  lemma {:induction false} MergeIdempotent(target: Json, source: Json)
    ensures Merge(Merge(target, source), source) == Merge(target, source)
    decreases source
  {
    match source
    case Undef =>
    case Null =>
    case Leaf(_) =>
    case Arr(s) =>
      var t := if target.Arr? then target.items else [];
      forall i | 0 <= i < |s| ensures Merge(Merge(At(t, i), s[i]), s[i]) == Merge(At(t, i), s[i]) {
        MergeIdempotent(At(t, i), s[i]);
      }
      assert Merge(Merge(target, source), source).items == Merge(target, source).items;
    case Obj(s) =>
      if !target.Arr? {
        forall k | k in s {
          MergeIdempotent(Get(FieldsOf(target), k), s[k]);
        }
        MergeObjectsIdempotent(target, source);
      }
  }

  lemma MergeObjectsIdempotent(target: Json, source: Json)
    requires source.Obj? && !target.Arr?
    requires forall k :: k in source.fields ==>
      var t, s := Get(FieldsOf(target), k), source.fields[k];
      Merge(Merge(t, s), s) == Merge(t, s)
    ensures Merge(Merge(target, source), source) == Merge(target, source)
  {
    MergeIsObject(target, source);
    var once := Merge(target, source);
    MergeIsObject(once, source);
    var twice := Merge(once, source);
    forall k ensures Get(twice.fields, k) == Get(once.fields, k) {
      hide Merge;
      MergeField(target, source, k);
      MergeField(once, source, k);
      MergeUndefined(Get(FieldsOf(target), k));
      MergeUndefined(Get(once.fields, k));
    }
    hide Merge;
    SameFields(twice.fields, once.fields);
  }

  lemma MergeIsObject(target: Json, source: Json)
    requires source.Obj? && !target.Arr?
    ensures Merge(target, source).Obj?
    ensures forall k :: k in Merge(target, source).fields ==> Merge(target, source).fields[k] != Undef
  {}

  lemma MergeUndefined(target: Json)
    ensures Merge(target, Undef) == target
  {}

  /** No object the patch reaches has an `_etag` that is null while the patch gives one. */
  predicate StableEtags(target: Json, source: Json)
    decreases source
  {
    source.Obj? && !target.Arr? ==>
      forall k :: k in source.fields ==>
        var t := Get(FieldsOf(target), k);
        if k == ETAG then t == Null ==> source.fields[k] == Undef || source.fields[k] == Null
        else StableEtags(t, source.fields[k])
  }

  /** What a field holds after merging and normalising. */
  function FieldAfter(t: Json, s: Json, key: string): Json {
    var merged := if key == ETAG && t != Undef then t else Merge(t, s);
    if merged == Null then Undef else Normalize(merged)
  }

  lemma ApplyField(target: Json, source: Json, key: string)
    requires source.Obj? && !target.Arr?
    ensures Merge(target, source).Obj?
    ensures Get(Normalize(Merge(target, source)).fields, key)
         == FieldAfter(Get(FieldsOf(target), key), Get(source.fields, key), key)
  {
    MergeField(target, source, key);
    NormalizeField(Merge(target, source), key);
  }

  lemma NormalizeNeverBlank(j: Json)
    ensures Normalize(j) == Null <==> j == Null
    ensures Normalize(j) == Undef <==> j == Undef
  {}

  lemma MergeBlank(t: Json, s: Json)
    ensures Merge(t, s) == Null <==> s == Null || (s == Undef && t == Null)
    ensures Merge(t, s) == Undef <==> s == Undef && t == Undef
  {}

  lemma EtagTwice(t: Json, s: Json)
    ensures FieldAfter(FieldAfter(t, s, ETAG), s, ETAG) == FieldAfter(t, s, ETAG) <==> (t == Null ==> s == Undef || s == Null)
  {
    MergeBlank(t, s);
    NormalizeNeverBlank(Merge(t, s));
    NormalizeNeverBlank(Merge(Undef, s));
    NormalizeNeverBlank(t);
    NormalizeIdempotent(t);
    NormalizeIdempotent(Merge(t, s));
  }

  lemma FieldTwice(t: Json, s: Json, key: string)
    requires key != ETAG
    requires Normalize(Merge(Normalize(Merge(t, s)), s)) == Normalize(Merge(t, s)) <==> StableEtags(t, s)
    ensures FieldAfter(FieldAfter(t, s, key), s, key) == FieldAfter(t, s, key) <==> StableEtags(t, s)
  {
    MergeBlank(t, s);
    MergeBlank(Undef, s);
    NormalizeNeverBlank(Merge(t, s));
    MergeBlank(Normalize(Merge(t, s)), s);
  }

  /** Merging a patch a second time changes nothing, if and only if no null `_etag` was there to be replaced. */
  lemma {:induction false} MergeTwice(target: Json, source: Json)
    ensures Normalize(Merge(Normalize(Merge(target, source)), source)) == Normalize(Merge(target, source))
            <==> StableEtags(target, source)
    decreases source
  {
    match source
    case Undef => NormalizeIdempotent(target);
    case Null =>
    case Leaf(_) =>
    case Arr(_) => MergeIdempotent(target, source);
    case Obj(s) =>
      if !target.Arr? {
        forall k | k in s && k != ETAG {
          MergeTwice(Get(FieldsOf(target), k), s[k]);
        }
        ObjectTwice(target, source);
      }
  }

  lemma ObjectTwice(target: Json, source: Json)
    requires source.Obj? && !target.Arr?
    requires forall k :: k in source.fields && k != ETAG ==>
               var t, s := Get(FieldsOf(target), k), source.fields[k];
               Normalize(Merge(Normalize(Merge(t, s)), s)) == Normalize(Merge(t, s)) <==> StableEtags(t, s)
    ensures Normalize(Merge(Normalize(Merge(target, source)), source)) == Normalize(Merge(target, source))
            <==> StableEtags(target, source)
  {
    hide Merge, Normalize, FieldAfter;
    ApplyField(target, source, "");
    var first := Normalize(Merge(target, source));
    assert first.Obj? by { NormalizeField(Merge(target, source), ""); }
    ApplyField(first, source, "");
    var second := Normalize(Merge(first, source));
    assert second.Obj? by { NormalizeField(Merge(first, source), ""); }
    forall k ensures Get(second.fields, k) == Get(first.fields, k) <==> FieldStable(target, source, k) {
      ApplyField(target, source, k);
      ApplyField(first, source, k);
      FieldTwiceCases(Get(FieldsOf(target), k), Get(source.fields, k), k, k in source.fields);
    }
    if StableEtags(target, source) {
      NoBlankFields(Merge(target, source));
      NoBlankFields(Merge(first, source));
      SameFields(second.fields, first.fields);
    } else {
      var k :| k in source.fields && !FieldStable(target, source, k);
      assert Get(second.fields, k) != Get(first.fields, k);
    }
  }

  predicate FieldStable(target: Json, source: Json, k: string)
    requires source.Obj? && !target.Arr?
  {
    k in source.fields ==>
      var t := Get(FieldsOf(target), k);
      if k == ETAG then t == Null ==> source.fields[k] == Undef || source.fields[k] == Null
      else StableEtags(t, source.fields[k])
  }

  lemma NoBlankFields(j: Json)
    requires j.Obj?
    ensures forall k :: k in Normalize(j).fields ==> Normalize(j).fields[k] != Undef
  {
    forall k | k in Normalize(j).fields ensures Normalize(j).fields[k] != Undef {
      NormalizeNeverBlank(j.fields[k]);
    }
  }

  lemma FieldTwiceCases(t: Json, s: Json, key: string, given: bool)
    requires !given ==> s == Undef
    requires given && key != ETAG ==>
               (Normalize(Merge(Normalize(Merge(t, s)), s)) == Normalize(Merge(t, s)) <==> StableEtags(t, s))
    ensures FieldAfter(FieldAfter(t, s, key), s, key) == FieldAfter(t, s, key)
            <==> (given ==> if key == ETAG then t == Null ==> s == Undef || s == Null else StableEtags(t, s))
  {
    if key == ETAG {
      EtagTwice(t, s);
    } else if given {
      FieldTwice(t, s, key);
    } else {
      NormalizeIdempotent(t);
      NormalizeNeverBlank(t);
    }
  }

  /** Applying a patch twice equals applying it once, if and only if no null `_etag` is there to be replaced; a document
      with its own etag and no null inside always qualifies. */
  lemma ApplyIdempotent(stored: Fields, patch: Fields)
    ensures Apply(Apply(stored, patch), patch) == Apply(stored, patch) <==> StableEtags(Obj(stored), Obj(patch))
    ensures Normalize(Obj(stored)) == Obj(stored) ==> StableEtags(Obj(stored), Obj(patch))
  {
    MergeTwice(Obj(stored), Obj(patch));
    if Normalize(Obj(stored)) == Obj(stored) {
      NormalizedIsStable(Obj(stored), Obj(patch));
    }
  }

  lemma {:induction false} NormalizedIsStable(target: Json, source: Json)
    requires Normalize(target) == target
    ensures StableEtags(target, source)
    decreases source
  {
    if source.Obj? && !target.Arr? {
      forall k | k in source.fields ensures FieldStable(target, source, k) {
        if target.Obj? {
          NormalizeField(target, k);
          assert k in target.fields ==> k in Normalize(target).fields;
        }
        NormalizedIsStable(Get(FieldsOf(target), k), source.fields[k]);
      }
    }
  }

  // ----- what a patch does at a path -----

  /** One step of a path: into a property, or into an item of an array. */
  datatype Place = Field(name: string) | Item(index: nat)

  function ItemsOf(target: Json): seq<Json> { if target.Arr? then target.items else [] }

  function Under(j: Json, place: Place): Json {
    match place
    case Field(name) => Get(FieldsOf(j), name)
    case Item(i) => At(ItemsOf(j), i)
  }

  predicate Fits(j: Json, place: Place) { if place.Field? then j.Obj? else j.Arr? }

  function Look(j: Json, path: seq<Place>): Json
    decreases path
  {
    if path == [] then j else Look(Under(j, path[0]), path[1..])
  }

  /** The patch says nothing at this path, and replaces nothing above it. */
  predicate Untouched(patch: Json, path: seq<Place>)
    decreases path
  {
    patch == Undef || (path != [] && Fits(patch, path[0]) && Untouched(Under(patch, path[0]), path[1..]))
  }

  /** Above the end of the path, no array lies where the path names a property. */
  predicate ArraysFit(j: Json, path: seq<Place>)
    decreases path
  {
    path == [] || (!(j.Arr? && path[0].Field?) && ArraysFit(Under(j, path[0]), path[1..]))
  }

  predicate InArray(path: seq<Place>) { path != [] && (path[0].Item? || InArray(path[1..])) }

  /** What normalising makes of a value at a path: nulls stay inside arrays and are dropped elsewhere. */
  function Settled(path: seq<Place>, j: Json): Json {
    if InArray(path) then j else if j.Null? then Undef else Normalize(j)
  }

  lemma LookInBlank(path: seq<Place>)
    ensures Look(Undef, path) == Undef
    ensures path != [] ==> Look(Null, path) == Undef
  {}

  lemma {:induction false} LookNormalized(j: Json, path: seq<Place>)
    requires path != []
    ensures Look(Normalize(j), path) == Settled(path, Look(j, path))
    decreases path
  {
    var next := Under(j, path[0]);
    LookInBlank(path[1..]);
    if j.Obj? && path[0].Field? {
      NormalizeField(j, path[0].name);
      assert InArray(path) == InArray(path[1..]);
      if |path| > 1 {
        LookNormalized(next, path[1..]);
      } else {
        assert path[1..] == [];
      }
    }
  }

  lemma MergeUnder(target: Json, source: Json, place: Place)
    requires Fits(source, place) && !(target.Arr? && place.Field?) && place != Field(ETAG)
    ensures Under(Merge(target, source), place) == Merge(Under(target, place), Under(source, place))
  {}

  lemma KeptWhole(target: Json, patch: Json)
    requires patch == Undef || (patch.Obj? && target.Arr?)
    ensures Merge(target, patch) == target
  {}

  lemma {:induction false} MergeLeaves(target: Json, patch: Json, path: seq<Place>)
    requires Untouched(patch, path)
    ensures Look(Merge(target, patch), path) == Look(target, path)
    decreases path
  {
    if patch == Undef || (target.Arr? && patch.Obj?) {
      KeptWhole(target, patch);
    } else {
      hide Merge;
      var t, s := Under(target, path[0]), Under(patch, path[0]);
      if path[0] == Field(ETAG) {
        MergeField(target, patch, ETAG);
      } else {
        MergeUnder(target, patch, path[0]);
      }
      MergeLeaves(t, s, path[1..]);
    }
  }

  lemma {:induction false} MergeReaches(target: Json, patch: Json, path: seq<Place>)
    requires Field(ETAG) !in path && ArraysFit(target, path) && Look(patch, path) != Undef
    ensures Look(Merge(target, patch), path) == Merge(Look(target, path), Look(patch, path))
    decreases path
  {
    if path != [] {
      hide Merge;
      LookInBlank(path[1..]);
      MergeUnder(target, patch, path[0]);
      MergeReaches(Under(target, path[0]), Under(patch, path[0]), path[1..]);
    }
  }

  /** What the patch does not mention is kept, also inside an item of an array: at such a path the result is the stored value,
      with its nulls dropped. */
  lemma UnmentionedIsKept(target: Json, patch: Json, path: seq<Place>)
    requires Untouched(patch, path)
    ensures Look(Normalize(Merge(target, patch)), path) == Look(Normalize(target), path)
  {
    hide Normalize;
    MergeLeaves(target, patch, path);
    if path != [] {
      LookNormalized(Merge(target, patch), path);
      LookNormalized(target, path);
    }
  }

  /** Whatever the patch has at a path: there the result is that merged with what was stored. */
  lemma MergedAtPath(target: Json, patch: Json, path: seq<Place>)
    requires path != [] && Field(ETAG) !in path && ArraysFit(target, path) && Look(patch, path) != Undef
    ensures Look(Normalize(Merge(target, patch)), path) == Settled(path, Merge(Look(target, path), Look(patch, path)))
  {
    MergeReaches(target, patch, path);
    LookNormalized(Merge(target, patch), path);
  }

  /** What the patch sets is set: a leaf appears; a null leaves a property undefined, and stays inside an array. */
  lemma MentionedIsSet(target: Json, patch: Json, path: seq<Place>)
    requires path != [] && Field(ETAG) !in path && ArraysFit(target, path)
    requires Look(patch, path).Leaf? || Look(patch, path).Null?
    ensures Look(Normalize(Merge(target, patch)), path)
         == if Look(patch, path).Null? && !InArray(path) then Undef else Look(patch, path)
  {
    hide Merge, Normalize;
    MergedAtPath(target, patch, path);
    MergeScalar(Look(target, path), Look(patch, path));
  }

  lemma MergeScalar(t: Json, s: Json)
    requires s.Leaf? || s.Null?
    ensures Merge(t, s) == s && Normalize(s) == s
  {}

  /** An object in the patch is there as an object, whatever it replaces but an array; an array as an array, in which no item of
      either is dropped, an item of the patch that is a scalar or null is as it is, and a hole and what is beyond the patch keep
      what was stored. */
  lemma ArrayIsMergedByIndex(target: Json, patch: Json, path: seq<Place>, i: nat)
    requires path != [] && Field(ETAG) !in path && ArraysFit(target, path)
    ensures var stored, given := Look(target, path), Look(patch, path);
      var result := Look(Normalize(Merge(target, patch)), path);
      && (given.Obj? && !stored.Arr? ==> result.Obj?)
      && (given.Arr? ==>
        && result.Arr? && |result.items| == Max(|ItemsOf(stored)|, |given.items|)
        && (At(given.items, i).Leaf? || At(given.items, i).Null? ==> At(result.items, i) == At(given.items, i))
        && (At(given.items, i) == Undef ==> At(result.items, i) == At(ItemsOf(stored), i)))
  {
    hide Merge, Normalize, Untouched, ArraysFit, Look;
    if Look(patch, path).Obj? || Look(patch, path).Arr? {
      MergedAtPath(target, patch, path);
      ArrayStays(Merge(Look(target, path), Look(patch, path)));
      MergedShape(Look(target, path), Look(patch, path), i);
    }
  }

  lemma MergedShape(stored: Json, given: Json, i: nat)
    ensures var result := Merge(stored, given);
      && (given.Obj? && !stored.Arr? ==> result.Obj?)
      && (given.Arr? ==>
        && result.Arr? && |result.items| == Max(|ItemsOf(stored)|, |given.items|)
        && (At(given.items, i).Leaf? || At(given.items, i).Null? ==> At(result.items, i) == At(given.items, i))
        && (At(given.items, i) == Undef ==> At(result.items, i) == At(ItemsOf(stored), i)))
  {}

  lemma ArrayStays(j: Json)
    ensures j.Arr? ==> Normalize(j) == j
    ensures j.Obj? ==> Normalize(j).Obj?
  {}

  /** The patch replaces nothing above the end of the path. */
  predicate Reaches(patch: Json, path: seq<Place>)
    decreases path
  {
    path == [] || patch == Undef || (Fits(patch, path[0]) && Reaches(Under(patch, path[0]), path[1..]))
  }

  lemma {:induction false} MergeKeepsEtag(target: Json, patch: Json, path: seq<Place>)
    requires path != [] && path[|path| - 1] == Field(ETAG) && Look(target, path).Leaf? && Reaches(patch, path)
    ensures Look(Merge(target, patch), path) == Look(target, path)
    decreases path
  {
    LookInBlank(path);
    if patch == Undef || (target.Arr? && patch.Obj?) {
      KeptWhole(target, patch);
    } else if path[0] == Field(ETAG) {
      LookInBlank(path[1..]);
      MergeField(target, patch, ETAG);
    } else {
      hide Merge;
      LookInBlank(path[1..]);
      MergeUnder(target, patch, path[0]);
      MergeKeepsEtag(Under(target, path[0]), Under(patch, path[0]), path[1..]);
    }
  }

  /** At every depth a stored etag survives a patch that replaces nothing above it, also one that carries another etag. */
  lemma EtagsSurvive(target: Json, patch: Json, path: seq<Place>)
    requires path != [] && path[|path| - 1] == Field(ETAG) && Look(target, path).Leaf? && Reaches(patch, path)
    ensures Look(Normalize(Merge(target, patch)), path) == Look(target, path)
  {
    MergeKeepsEtag(target, patch, path);
    LookNormalized(Merge(target, patch), path);
    MergeScalar(target, Look(target, path));
  }

  /** The stored document's etag survives every patch. */
  lemma EtagSurvives(stored: Fields, patch: Fields)
    requires Get(stored, ETAG).Leaf?
    ensures Get(Apply(stored, patch), ETAG) == Get(stored, ETAG)
  {
    ApplyField(Obj(stored), Obj(patch), ETAG);
  }
}
