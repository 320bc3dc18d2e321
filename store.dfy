// The term database (`database.json`) shared by the LanguaL importer and the
// subset generator: one entity per LanguaL code, each a bundle of attribute
// records, plus the reverse label lookup both scripts build the same way.
module Store {
  import opened Wrappers
  import opened PyStr
  import opened AttributeStore
  import Ancestry

  /** An entity's review status. */
  datatype Status = Draft | Import | Deprecated | Ignore

  /** One database entity. `isAOrder` is the insertion order of the `is_a`
      dictionary, whose first entry marks the record as already processed; `attrs`
      holds the entity's own records (`active`, `label`, `comment`, ...); `taxon`
      maps "rank:name" keys to their per-database records. */
  datatype Entity = Entity(
    status: Status,
    databaseId: string,
    ontologyId: Option<string>,
    isAOrder: seq<string>,
    isA: Attrs,
    xrefs: Attrs,
    synonyms: Attrs,
    attrs: Attrs,
    taxon: map<string, Attrs>)

  /** The `is_a` order lists each key of `is_a` exactly once. */
  ghost predicate IsAOrdered(e: Entity) {
    (forall k :: k in e.isAOrder <==> k in e.isA)
    && forall i, j :: 0 <= i < j < |e.isAOrder| ==> e.isAOrder[i] != e.isAOrder[j]
  }

  /** The parent values of the `is_a` entries, in dictionary order. */
  function ParentValues(e: Entity): (r: seq<Option<string>>)
    ensures |r| == |e.isAOrder|
    ensures forall i :: 0 <= i < |r| && e.isAOrder[i] in e.isA ==> r[i] == e.isA[e.isAOrder[i]].value
  {
    seq(|e.isAOrder|, i requires 0 <= i < |e.isAOrder| =>
      if e.isAOrder[i] in e.isA then e.isA[e.isAOrder[i]].value else None)
  }

  /** The `is_a` structure that `itemAncestor` walks. */
  function ParentGraph(index: map<string, Entity>): (g: Ancestry.ParentGraph)
    ensures g.Keys == index.Keys
    ensures forall id :: id in index ==> g[id] == ParentValues(index[id])
  {
    map id | id in index :: ParentValues(index[id])
  }

  /** `entity['label']['value'].lower()`, or `None` where Python raises (no label
      record, or a null label). */
  function LabelKey(e: Entity): (r: Option<string>)
    ensures r.Some? <==> "label" in e.attrs && e.attrs["label"].value.Some?
    ensures r.Some? ==> |r.value| == |e.attrs["label"].value.value|
  {
    if "label" in e.attrs && e.attrs["label"].value.Some? then Some(Lower(e.attrs["label"].value.value)) else None
  }

  /** A food source (facet B) or something with an ancestor whose parent is C0228
      (extract, concentrate or isolate of plant or animal). */
  ghost predicate FoodSourceLike(index: map<string, Entity>, id: string) {
    (id != "" && id[0] == 'B')
    || exists n :: Ancestry.Reachable(ParentGraph(index), id, n)
                   && Ancestry.HasParentIn(ParentGraph(index), n, {"C0228"})
  }

  /** The entities whose lowercased label is entered in the reverse lookup. */
  ghost predicate Eligible(index: map<string, Entity>, id: string) {
    id in index && FoodSourceLike(index, id)
    && index[id].status != Deprecated && index[id].status != Ignore
  }

  /** What makes the lookup build stop with an error at `id`. */
  ghost predicate Unlabelled(index: map<string, Entity>, id: string) {
    id == "" || (Eligible(index, id) && LabelKey(index[id]).None?)
  }

  /** The reverse lookup after visiting `order`, and whether the visit got through:
      an empty key, or an eligible entity without a label, stops it with what was
      entered so far. */
  ghost function LabelLookup(index: map<string, Entity>, order: seq<string>): (map<string, string>, bool)
    decreases |order|
  {
    if order == [] then (map[], true)
    else
      var prev, item := LabelLookup(index, order[..|order| - 1]), order[|order| - 1];
      if !prev.1 then prev
      else if item == "" then (prev.0, false)
      else if !Eligible(index, item) then prev
      else if LabelKey(index[item]).None? then (prev.0, false)
      else (prev.0[LabelKey(index[item]).value := item], true)
  }

  /** Once the visit has stopped, the later entities change nothing. */
  lemma {:induction false} LabelLookupStopped(index: map<string, Entity>, order: seq<string>, n: nat)
    requires n <= |order| && !LabelLookup(index, order[..n]).1
    ensures LabelLookup(index, order) == LabelLookup(index, order[..n])
    decreases |order| - n
  {
    if n < |order| {
      assert order[..|order| - 1][..n] == order[..n];
      LabelLookupStopped(index, order[..|order| - 1], n);
    } else {
      assert order[..n] == order;
    }
  }

  lemma LabelLookupEntered(index: map<string, Entity>, order: seq<string>, i: nat, lookup: map<string, string>, key: string)
    requires i < |order| && LabelLookup(index, order[..i]) == (lookup, true)
    requires order[i] != "" && Eligible(index, order[i]) && LabelKey(index[order[i]]) == Some(key)
    ensures LabelLookup(index, order[..i + 1]) == (lookup[key := order[i]], true)
  {
    assert order[..i + 1][..i] == order[..i];
  }

  lemma LabelLookupSkipped(index: map<string, Entity>, order: seq<string>, i: nat, lookup: map<string, string>)
    requires i < |order| && LabelLookup(index, order[..i]) == (lookup, true)
    requires order[i] != "" && !Eligible(index, order[i])
    ensures LabelLookup(index, order[..i + 1]) == (lookup, true)
  {
    assert order[..i + 1][..i] == order[..i];
  }

  lemma LabelLookupFails(index: map<string, Entity>, order: seq<string>, i: nat, lookup: map<string, string>)
    requires i < |order| && LabelLookup(index, order[..i]) == (lookup, true)
    requires Unlabelled(index, order[i])
    ensures LabelLookup(index, order) == (lookup, false)
  {
    assert order[..i + 1][..i] == order[..i];
    LabelLookupStopped(index, order, i + 1);
  }

  /** `order[i]` is the last eligible entity of `order` whose lowercased label is `l`. */
  ghost predicate LastLabelled(index: map<string, Entity>, order: seq<string>, i: int, l: string) {
    0 <= i < |order|
    && forall j :: i < j < |order| && Eligible(index, order[j]) ==> LabelKey(index[order[j]]) != Some(l)
  }

  /** What the reverse lookup holds after the first `i` entities of `order`:
      every entry is an eligible entity under its own lowercased label, recorded at
      position `pos[l]` with no later eligible entity carrying that label, and every
      eligible entity seen so far has its label entered. */
  ghost predicate LookupSoFar(index: map<string, Entity>, order: seq<string>, i: int,
                              lookup: map<string, string>, pos: map<string, int>) {
    && pos.Keys == lookup.Keys
    && (forall l :: l in pos ==> 0 <= pos[l] < i && pos[l] < |order| && order[pos[l]] == lookup[l])
    && (forall l :: l in lookup ==> Eligible(index, lookup[l]) && LabelKey(index[lookup[l]]) == Some(l))
    && (forall l, j :: l in pos && pos[l] < j < i && 0 <= j < |order| && Eligible(index, order[j]) ==>
          LabelKey(index[order[j]]) != Some(l))
    && (forall j :: 0 <= j < i && j < |order| && Eligible(index, order[j]) ==>
          LabelKey(index[order[j]]).Some? && LabelKey(index[order[j]]).value in lookup)
  }

  lemma EnteredStep(index: map<string, Entity>, order: seq<string>, i: int, lookup: map<string, string>,
                    pos: map<string, int>, key: string)
    requires 0 <= i < |order| && Eligible(index, order[i]) && LabelKey(index[order[i]]) == Some(key)
    requires LookupSoFar(index, order, i, lookup, pos)
    ensures LookupSoFar(index, order, i + 1, lookup[key := order[i]], pos[key := i])
  {
    var lookup', pos' := lookup[key := order[i]], pos[key := i];
    forall l | l in pos' ensures 0 <= pos'[l] < i + 1 && pos'[l] < |order| && order[pos'[l]] == lookup'[l] {
      if l != key {
        assert pos'[l] == pos[l] && lookup'[l] == lookup[l];
      }
    }
    forall l | l in lookup' ensures Eligible(index, lookup'[l]) && LabelKey(index[lookup'[l]]) == Some(l) {
      if l != key {
        assert lookup'[l] == lookup[l];
      }
    }
    forall l, j | l in pos' && pos'[l] < j < i + 1 && 0 <= j < |order| && Eligible(index, order[j])
      ensures LabelKey(index[order[j]]) != Some(l)
    {
      if j < i {
        assert l != key && pos'[l] == pos[l];
      }
    }
    forall j | 0 <= j < i + 1 && j < |order| && Eligible(index, order[j])
      ensures LabelKey(index[order[j]]).Some? && LabelKey(index[order[j]]).value in lookup'
    {
    }
  }

  lemma SkippedStep(index: map<string, Entity>, order: seq<string>, i: int, lookup: map<string, string>,
                    pos: map<string, int>)
    requires 0 <= i < |order| && !Eligible(index, order[i])
    requires LookupSoFar(index, order, i, lookup, pos)
    ensures LookupSoFar(index, order, i + 1, lookup, pos)
  {}

  lemma LookupDone(index: map<string, Entity>, order: seq<string>, lookup: map<string, string>,
                   pos: map<string, int>)
    requires LookupSoFar(index, order, |order|, lookup, pos)
    ensures forall l :: l in lookup ==> Eligible(index, lookup[l]) && LabelKey(index[lookup[l]]) == Some(l)
    ensures forall i :: 0 <= i < |order| && Eligible(index, order[i]) ==>
              LabelKey(index[order[i]]).Some? && LabelKey(index[order[i]]).value in lookup
    ensures forall l :: l in lookup ==> exists i :: LastLabelled(index, order, i, l) && order[i] == lookup[l]
  {
    forall l | l in lookup ensures exists k :: LastLabelled(index, order, k, l) && order[k] == lookup[l] {
      assert LastLabelled(index, order, pos[l], l);
    }
  }

  /** `makeLableLookup` / the end of `get_database_JSON`: every eligible entity,
      visited in index order, is entered under its lowercased label (a later entity
      with the same label replaces an earlier one). Python stops with an error on an
      empty key or on an eligible entity without a label. */
  method BuildLabelReverseLookup(index: map<string, Entity>, order: seq<string>)
    returns (lookup: map<string, string>, ok: bool)
    requires forall i :: 0 <= i < |order| ==> order[i] in index
    ensures ok ==> forall l :: l in lookup ==>
              Eligible(index, lookup[l]) && LabelKey(index[lookup[l]]) == Some(l)
    ensures ok ==> forall i :: 0 <= i < |order| && Eligible(index, order[i]) ==>
              LabelKey(index[order[i]]).Some? && LabelKey(index[order[i]]).value in lookup
    ensures ok ==> forall l :: l in lookup ==> exists i :: LastLabelled(index, order, i, l) && order[i] == lookup[l]
    ensures !ok ==> exists i :: 0 <= i < |order| && Unlabelled(index, order[i])
    ensures (lookup, ok) == LabelLookup(index, order)
  {
    var g := ParentGraph(index);
    lookup := map[];
    ghost var pos: map<string, int> := map[];
    var i := 0;
    while i < |order|
      invariant 0 <= i <= |order|
      invariant LookupSoFar(index, order, i, lookup, pos)
      invariant LabelLookup(index, order[..i]) == (lookup, true)
    {
      var item := order[i];
      if item == "" {
        ok := false;
        LabelLookupFails(index, order, i, lookup);
        return;
      }
      var candidate := item[0] == 'B';
      if !candidate {
        candidate := Ancestry.ItemAncestor(g, item, {"C0228"});
      }
      var entity := index[item];
      assert candidate <==> FoodSourceLike(index, item);
      if candidate && !(entity.status == Deprecated || entity.status == Ignore) {
        var key := LabelKey(entity);
        if key.None? {
          ok := false;
          LabelLookupFails(index, order, i, lookup);
          return;
        }
        EnteredStep(index, order, i, lookup, pos, key.value);
        LabelLookupEntered(index, order, i, lookup, key.value);
        lookup := lookup[key.value := item];
        pos := pos[key.value := i];
      } else {
        SkippedStep(index, order, i, lookup, pos);
        LabelLookupSkipped(index, order, i, lookup);
      }
      assert LabelLookup(index, order[..i + 1]) == (lookup, true);
      i := i + 1;
    }
    ok := true;
    assert order[..|order|] == order;
    LookupDone(index, order, lookup, pos);
  }
}
