// Redirecting references to deprecated terms (src/ontology/util_obsoletion_update.py):
// every element of an ontology that points, through its rdf:resource, at a class
// the deprecations file marks as deprecated is pointed at that class's
// "term replaced by" (IAO_0100001) IRI instead. The elements below the root of the
// ontology are an array rewritten in place; the classes of the deprecations file
// are a sequence of values.
module ObsoletionUpdate {
  import opened Wrappers

  /** An element below the root of the ontology being updated: its qualified name,
      its parsed rdf:resource attribute, and the literal `rdf:resource` attribute the
      script sets in place of the parsed one. */
  datatype Tag = Tag(name: string, resource: Option<string>, written: Option<string>)

  /** An IAO_0100001 child of a deprecated class: its text and its rdf:resource. */
  datatype Replacement = Replacement(text: Option<string>, resource: Option<string>)

  /** An owl:Class of the deprecations file: its rdf:about, how many owl:deprecated
      children it has (their values are not read), and its IAO_0100001 children. */
  datatype DeprecatedClass = DeprecatedClass(about: Option<string>, deprecatedMarks: nat, replacements: seq<Replacement>)

  const AboutMissing := "KeyError: rdf:about"
  const ResourceMissing := "KeyError: rdf:resource"

  // ---------------------------------------------------------------------
  // The resource lookup

  /** `rdf_resource_lookup`: each rdf:resource value mapped to the first element that
      carries it. A second element with the same value makes the script call `push`
      on a list, which raises; the exception is swallowed and the element is left
      out. */
  function ResourceLookup(tags: seq<Tag>): map<string, nat> {
    if tags == [] then map[]
    else
      var lookup := ResourceLookup(tags[..|tags| - 1]);
      var last := tags[|tags| - 1];
      if last.resource.Some? && last.resource.value !in lookup then lookup[last.resource.value := |tags| - 1]
      else lookup
  }

  /** A value is in the lookup exactly when some element carries it, and it leads to
      the first element that does. */
  lemma {:induction false} ResourceLookupFirst(tags: seq<Tag>, target: string)
    ensures target in ResourceLookup(tags) <==> exists i :: 0 <= i < |tags| && tags[i].resource == Some(target)
    ensures target in ResourceLookup(tags) ==>
              var i := ResourceLookup(tags)[target];
              i < |tags| && tags[i].resource == Some(target)
              && forall j :: 0 <= j < i ==> tags[j].resource != Some(target)
  {
    if tags != [] {
      var init := tags[..|tags| - 1];
      ResourceLookupFirst(init, target);
      if target !in ResourceLookup(init) && tags[|tags| - 1].resource != Some(target) {
        forall i | 0 <= i < |tags| ensures tags[i].resource != Some(target) {
          if i < |tags| - 1 {
            assert tags[i] == init[i];
          }
        }
      }
      if target in ResourceLookup(init) {
        var i := ResourceLookup(init)[target];
        assert tags[i] == init[i];
        assert forall j :: 0 <= j < i ==> tags[j] == init[j];
      }
    }
  }

  /** Every element the lookup leads to lies inside the array. */
  lemma {:induction false} ResourceLookupInRange(tags: seq<Tag>)
    ensures forall t | t in ResourceLookup(tags) :: ResourceLookup(tags)[t] < |tags|
  {
    if tags != [] {
      ResourceLookupInRange(tags[..|tags| - 1]);
    }
  }

  /** `ResourceLookup` computed by the loop of the script. */
  method BuildResourceLookup(tags: array<Tag>) returns (lookup: map<string, nat>)
    ensures lookup == ResourceLookup(tags[..])
  {
    lookup := map[];
    for i := 0 to tags.Length
      invariant lookup == ResourceLookup(tags[..i])
    {
      assert tags[..i + 1][..i] == tags[..i];
      match tags[i].resource
      case None =>
      case Some(target) =>
        if target !in lookup {
          lookup := lookup[target := i];
        }
    }
    assert tags[..tags.Length] == tags[..];
  }

  // ---------------------------------------------------------------------
  // The rewrite, as a value

  /** The IRI a deprecated term is replaced by: the text of the IAO_0100001 element
      when it has some, otherwise its rdf:resource, and a KeyError when it has
      neither. */
  function ReplacedIri(r: Replacement): (iri: Result<string>)
    ensures iri.Ok? <==> (r.text.Some? && r.text.value != "") || r.resource.Some?
    ensures iri.Ok? && r.text.Some? && r.text.value != "" ==> iri.value == r.text.value
  {
    if r.text.Some? && r.text.value != "" then Ok(r.text.value)
    else if r.resource.Some? then Ok(r.resource.value)
    else Err(ResourceMissing)
  }

  /** The effect of the script so far: the IRI each rewritten element now carries,
      the count, and the error that stopped it. */
  datatype Outcome = Outcome(rewrites: map<nat, string>, count: nat, failure: Option<string>)

  /** One class of the deprecations file. Its rdf:about is read first; a class with
      an owl:deprecated child and an IAO_0100001 child redirects the element its IRI
      leads to in the lookup, once per owl:deprecated child. */
  function ClassStep(o: Outcome, c: DeprecatedClass, lookup: map<string, nat>): Outcome {
    if o.failure.Some? then o
    else if c.about.None? then o.(failure := Some(AboutMissing))
    else if c.deprecatedMarks == 0 || c.replacements == [] then o
    else match ReplacedIri(c.replacements[0])
      case Err(e) => o.(failure := Some(e))
      case Ok(iri) =>
        if c.about.value in lookup then
          Outcome(o.rewrites[lookup[c.about.value] := iri], o.count + c.deprecatedMarks, None)
        else o
  }

  /** The classes of the deprecations file in order, against the lookup built from
      the ontology before any rewrite. */
  function Planned(classes: seq<DeprecatedClass>, lookup: map<string, nat>): Outcome {
    if classes == [] then Outcome(map[], 0, None)
    else ClassStep(Planned(classes[..|classes| - 1], lookup), classes[|classes| - 1], lookup)
  }

  /** The elements after the rewrite: a rewritten element loses its parsed
      rdf:resource and carries the replacement; every other element is as it was. */
  function Rewritten(tags: seq<Tag>, rewrites: map<nat, string>): (r: seq<Tag>)
    ensures |r| == |tags|
  {
    seq(|tags|, i requires 0 <= i < |tags| =>
      if i in rewrites then tags[i].(resource := None, written := Some(rewrites[i])) else tags[i])
  }

  /** Class `c` redirects element `i`. */
  predicate Redirects(c: DeprecatedClass, lookup: map<string, nat>, i: nat) {
    c.about.Some? && c.about.value in lookup && lookup[c.about.value] == i
    && c.deprecatedMarks > 0 && c.replacements != [] && ReplacedIri(c.replacements[0]).Ok?
  }

  /** Once an error stops the script, nothing more happens. */
  lemma {:induction false} PlannedStops(classes: seq<DeprecatedClass>, n: nat, lookup: map<string, nat>)
    requires n <= |classes| && Planned(classes[..n], lookup).failure.Some?
    ensures Planned(classes, lookup) == Planned(classes[..n], lookup)
    decreases |classes| - n
  {
    if n < |classes| {
      assert classes[..n + 1][..n] == classes[..n];
      PlannedStops(classes, n + 1, lookup);
    } else {
      assert classes[..n] == classes;
    }
  }

  /** An error stops the script after some prefix of the classes that ran without
      one; what was rewritten and counted is what that prefix did. */
  lemma {:induction false} PlannedFailure(classes: seq<DeprecatedClass>, lookup: map<string, nat>)
    requires Planned(classes, lookup).failure.Some?
    ensures exists f :: 0 <= f < |classes| && Planned(classes[..f], lookup).failure.None?
              && Planned(classes, lookup).rewrites == Planned(classes[..f], lookup).rewrites
              && Planned(classes, lookup).count == Planned(classes[..f], lookup).count
  {
    var init := classes[..|classes| - 1];
    if Planned(init, lookup).failure.Some? {
      PlannedFailure(init, lookup);
      var f :| 0 <= f < |init| && Planned(init[..f], lookup).failure.None?
               && Planned(init, lookup).rewrites == Planned(init[..f], lookup).rewrites
               && Planned(init, lookup).count == Planned(init[..f], lookup).count;
      assert init[..f] == classes[..f];
    } else {
      assert init == classes[..|classes| - 1];
    }
  }

  /** Without an error, an element is rewritten exactly when some class redirects
      it. */
  lemma {:induction false} PlannedRewrites(classes: seq<DeprecatedClass>, lookup: map<string, nat>, i: nat)
    requires Planned(classes, lookup).failure.None?
    ensures i in Planned(classes, lookup).rewrites <==>
              exists k :: 0 <= k < |classes| && Redirects(classes[k], lookup, i)
  {
    if classes != [] {
      var init := classes[..|classes| - 1];
      PlannedRewrites(init, lookup, i);
      assert forall k :: 0 <= k < |init| ==> init[k] == classes[k];
      if exists k :: 0 <= k < |classes| && Redirects(classes[k], lookup, i) {
        var k :| 0 <= k < |classes| && Redirects(classes[k], lookup, i);
        if k < |init| {
          assert Redirects(init[k], lookup, i);
        }
      }
    }
  }

  /** A class that does not redirect an element leaves its rewrite as it was. */
  lemma StepKeeps(o: Outcome, c: DeprecatedClass, lookup: map<string, nat>, i: nat)
    requires !Redirects(c, lookup, i)
    ensures var o' := ClassStep(o, c, lookup);
            (i in o'.rewrites <==> i in o.rewrites) && (i in o.rewrites ==> o'.rewrites[i] == o.rewrites[i])
  {
  }

  /** Without an error, a rewritten element carries the replacement of the last
      class that redirects it. The lookup is never updated, so a replacement that is
      itself deprecated is not followed further. */
  lemma {:induction false} PlannedLastWins(classes: seq<DeprecatedClass>, lookup: map<string, nat>, i: nat)
    requires Planned(classes, lookup).failure.None? && i in Planned(classes, lookup).rewrites
    ensures exists k :: 0 <= k < |classes| && Redirects(classes[k], lookup, i)
              && Planned(classes, lookup).rewrites[i] == ReplacedIri(classes[k].replacements[0]).value
              && forall k' :: k < k' < |classes| ==> !Redirects(classes[k'], lookup, i)
  {
    var init := classes[..|classes| - 1];
    var c := classes[|classes| - 1];
    var o0 := Planned(init, lookup);
    var o := Planned(classes, lookup);
    assert o == ClassStep(o0, c, lookup) && o0.failure.None?;
    if Redirects(c, lookup, i) {
      assert o.rewrites == o0.rewrites[i := ReplacedIri(c.replacements[0]).value];
    } else {
      StepKeeps(o0, c, lookup, i);
      PlannedLastWins(init, lookup, i);
      var k :| 0 <= k < |init| && Redirects(init[k], lookup, i)
               && Planned(init, lookup).rewrites[i] == ReplacedIri(init[k].replacements[0]).value
               && forall k' :: k < k' < |init| ==> !Redirects(init[k'], lookup, i);
      assert init[k] == classes[k];
      assert forall k' :: k < k' < |init| ==> init[k'] == classes[k'];
    }
  }

  /** Something is counted exactly when something is rewritten, so the file is
      written exactly when an element changed. */
  lemma {:induction false} PlannedCount(classes: seq<DeprecatedClass>, lookup: map<string, nat>)
    ensures var o := Planned(classes, lookup); o.count > 0 <==> o.rewrites != map[]
  {
    if classes != [] {
      PlannedCount(classes[..|classes| - 1], lookup);
      var o0 := Planned(classes[..|classes| - 1], lookup);
      var o := Planned(classes, lookup);
      var c := classes[|classes| - 1];
      if o0.failure.None? && c.about.Some? && c.about.value in lookup && c.deprecatedMarks > 0
         && c.replacements != [] && ReplacedIri(c.replacements[0]).Ok? {
        assert lookup[c.about.value] in o.rewrites;
      } else {
        assert o.rewrites == o0.rewrites && o.count == o0.count;
      }
    }
  }

  /** The rewrite leads from one element's resource to the class about that very
      resource: a class deprecated in favour of another deprecated class does not
      pass the second replacement on. */
  lemma ChainNotFollowed()
    ensures var tags := [Tag("rdfs:subClassOf", Some("A"), None)];
            var classes := [DeprecatedClass(Some("A"), 1, [Replacement(Some("B"), None)]),
                            DeprecatedClass(Some("B"), 1, [Replacement(Some("C"), None)])];
            var o := Planned(classes, ResourceLookup(tags));
            Rewritten(tags, o.rewrites) == [Tag("rdfs:subClassOf", None, Some("B"))] && o.count == 1
  {
    var tags := [Tag("rdfs:subClassOf", Some("A"), None)];
    assert tags[..0] == [];
    var lookup := ResourceLookup(tags);
    assert lookup == map["A" := 0];
    var classes := [DeprecatedClass(Some("A"), 1, [Replacement(Some("B"), None)]),
                    DeprecatedClass(Some("B"), 1, [Replacement(Some("C"), None)])];
    assert classes[..1] == [classes[0]] && classes[..1][..0] == [];
    assert Planned(classes[..1], lookup) == Outcome(map[0 := "B"], 1, None);
  }

  // ---------------------------------------------------------------------
  // The rewrite, in place

  /** The elements carry the rewrites made so far, and every element the lookup
      leads to is one of them. */
  ghost predicate Carried(tags: array<Tag>, original: seq<Tag>, lookup: map<string, nat>, rewrites: map<nat, string>)
    reads tags
  {
    |original| == tags.Length && tags[..] == Rewritten(original, rewrites)
    && forall t | t in lookup :: lookup[t] < tags.Length
  }

  /** The script: the lookup, then the classes of the deprecations file in order.
      It stops at the first error; the file is written only when nothing failed and
      something was rewritten. */
  method UpdateReferences(tags: array<Tag>, classes: seq<DeprecatedClass>)
      returns (count: nat, failure: Option<string>, write: bool)
    modifies tags
    ensures var o := Planned(classes, ResourceLookup(old(tags[..])));
            count == o.count && failure == o.failure && tags[..] == Rewritten(old(tags[..]), o.rewrites)
    ensures write <==> failure.None? && count > 0
  {
    ghost var original := tags[..];
    var lookup := BuildResourceLookup(tags);
    ResourceLookupInRange(original);
    count, failure := 0, None;
    ghost var rewrites: map<nat, string> := map[];
    assert original == Rewritten(original, rewrites);
    var k := 0;
    while k < |classes| && failure.None?
      invariant k <= |classes| && lookup == ResourceLookup(original)
      invariant Planned(classes[..k], lookup) == Outcome(rewrites, count, failure)
      invariant Carried(tags, original, lookup, rewrites)
    {
      assert classes[..k + 1][..k] == classes[..k];
      count, failure, rewrites := ApplyClass(tags, lookup, classes[k], count, original, rewrites);
      k := k + 1;
    }
    if k < |classes| {
      PlannedStops(classes, k, lookup);
    } else {
      assert classes[..k] == classes;
    }
    write := failure.None? && count > 0;
  }

  /** One class of the deprecations file, with the inner loop over its owl:deprecated
      children. */
  method ApplyClass(tags: array<Tag>, lookup: map<string, nat>, c: DeprecatedClass, count: nat,
                    ghost original: seq<Tag>, ghost rewrites: map<nat, string>)
      returns (count': nat, failure: Option<string>, ghost rewrites': map<nat, string>)
    requires Carried(tags, original, lookup, rewrites)
    modifies tags
    ensures ClassStep(Outcome(rewrites, count, None), c, lookup) == Outcome(rewrites', count', failure)
    ensures Carried(tags, original, lookup, rewrites')
  {
    count', failure, rewrites' := count, None, rewrites;
    if c.about.None? {
      failure := Some(AboutMissing);
      return;
    }
    var about := c.about.value;
    ghost var applies := c.replacements != [] && ReplacedIri(c.replacements[0]).Ok? && about in lookup;
    var m := 0;
    while m < c.deprecatedMarks && failure.None?
      invariant m <= c.deprecatedMarks
      invariant Carried(tags, original, lookup, rewrites')
      invariant failure.None? ==> count' == count + (if applies then m else 0)
      invariant failure.None? ==>
                  rewrites' == if applies && m > 0 then rewrites[lookup[about] := ReplacedIri(c.replacements[0]).value]
                               else rewrites
      invariant failure.Some? ==> ClassStep(Outcome(rewrites, count, None), c, lookup) == Outcome(rewrites', count', failure)
      invariant failure.None? && m > 0 && c.replacements != [] ==> ReplacedIri(c.replacements[0]).Ok?
    {
      if c.replacements != [] {
        var iri: string;
        if c.replacements[0].text.Some? && c.replacements[0].text.value != "" {
          iri := c.replacements[0].text.value;
        } else if c.replacements[0].resource.Some? {
          iri := c.replacements[0].resource.value;
        } else {
          failure := Some(ResourceMissing);
          break;
        }
        if about in lookup {
          var i := lookup[about];
          tags[i] := tags[i].(resource := None, written := Some(iri));
          rewrites' := rewrites'[i := iri];
          assert tags[..] == Rewritten(original, rewrites') by {
            forall j | 0 <= j < tags.Length ensures tags[j] == Rewritten(original, rewrites')[j] {
            }
          }
          count' := count' + 1;
        }
      }
      m := m + 1;
    }
  }
}
