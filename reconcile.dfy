// The per-record steps of the LanguaL importer's reconciliation loop
// (src/ontology/imports/langual/langual.py, `__main__`), each on one entity value.
module Reconcile {
  import opened Wrappers
  import opened PyStr
  import opened AttributeStore
  import opened Store
  import opened TaxonLookup

  /** One `<DESCRIPTOR>` of the LanguaL XML: the raw text of its FTC, ACTIVE, BT,
      SN, TERM and AI elements (`None` for an empty element), the taxonomy pattern's
      matches on the lines of AI (`None` for a line that does not match), and the
      text of each SYNONYM element. */
  datatype Descriptor = Descriptor(
    ftc: Option<string>,
    active: Option<string>,
    bt: Option<string>,
    sn: Option<string>,
    term: Option<string>,
    ai: Option<string>,
    taxonomy: seq<Option<TaxonMatch>>,
    synonyms: seq<Option<string>>)

  /** `load_attribute` on an XML element: its text stripped, or `None` when empty. */
  function XmlValue(text: Option<string>): (r: Option<string>)
    ensures r.Some? <==> text.Some? && text.value != ""
    ensures r.Some? ==> r.value == Strip(text.value)
  {
    if text.Some? && text.value != "" then Some(Strip(text.value)) else None
  }

  /** The skeleton of a code seen for the first time: a draft with empty `is_a`,
      `xrefs` and `synonyms`, and its `active` record merged but not imported. */
  function NewEntity(databaseId: string, active: Option<string>): (e: Entity)
    ensures e.status == Draft && e.databaseId == databaseId && e.ontologyId.None?
    ensures e.isAOrder == [] && e.isA == map[] && e.xrefs == map[] && e.synonyms == map[] && e.taxon == map[]
    ensures e.attrs == map["active" := Attr(active, false, false, true, None)]
    ensures IsAOrdered(e)
  {
    var skeleton := Entity(Draft, databaseId, None, [], map[], map[], map[], map[], map[]);
    var attrs := SetAttributeDiff(skeleton.attrs, "active", active, None);
    skeleton.(attrs := attrs["active" := attrs["active"].(doImport := false)])
  }

  /** Merges `is_a[parentOntologyId] = parentId`; a new key goes to the end of the order. */
  function AddParent(e: Entity, parentOntologyId: string, parentId: string): (r: Entity)
    requires IsAOrdered(e)
    ensures IsAOrdered(r)
    ensures r.isA == SetAttributeDiff(e.isA, parentOntologyId, Some(parentId), None)
    ensures r.isAOrder == if parentOntologyId in e.isA then e.isAOrder else e.isAOrder + [parentOntologyId]
    ensures r == e.(isA := r.isA, isAOrder := r.isAOrder)
  {
    var order := if parentOntologyId in e.isA then e.isAOrder else e.isAOrder + [parentOntologyId];
    e.(isA := SetAttributeDiff(e.isA, parentOntologyId, Some(parentId), None), isAOrder := order)
  }

  /** The value of the first `is_a` entry, `entity['is_a'].iteritems().next()`. */
  function FirstParentValue(e: Entity): (r: Option<string>)
    requires IsAOrdered(e) && e.isAOrder != []
  {
    assert e.isAOrder[0] in e.isAOrder;
    e.isA[e.isAOrder[0]].value
  }

  /** The sentinel that makes a multi-parent record go through the loop once: the
      record that brings the first parent is processed, and a repeated record with a
      different parent leaves the first entry, hence the sentinel, as it was. */
  lemma FirstParentSentinel(e: Entity, parentOntologyId: string, parentId: string)
    requires IsAOrdered(e)
    ensures var r := AddParent(e, parentOntologyId, parentId);
            r.isAOrder != []
            && (e.isAOrder == [] ==> FirstParentValue(r) == Some(parentId))
            && (e.isAOrder != [] && parentOntologyId != e.isAOrder[0] ==>
                  r.isAOrder[0] == e.isAOrder[0] && FirstParentValue(r) == FirstParentValue(e))
            && (e.isAOrder != [] && parentOntologyId == e.isAOrder[0] && !e.isA[parentOntologyId].locked ==>
                  FirstParentValue(r) == Some(parentId))
  {
    var r := AddParent(e, parentOntologyId, parentId);
    if e.isAOrder != [] {
      assert e.isAOrder[0] in e.isAOrder;
    }
  }

  /** Every parent merged so far stays in `is_a` under its ontology id. */
  lemma ParentRecorded(e: Entity, parentOntologyId: string, parentId: string)
    requires IsAOrdered(e)
    ensures var r := AddParent(e, parentOntologyId, parentId);
            parentOntologyId in r.isAOrder && e.isA.Keys <= r.isA.Keys
            && (e.isAOrder <= r.isAOrder)
            && (parentOntologyId !in e.isA || !e.isA[parentOntologyId].locked ==>
                  r.isA[parentOntologyId].value == Some(parentId))
  {
  }

  /** The phrase in a scope note that retires a term. */
  const NoNewIndexing := "DO NOT USE for new indexing"

  /** The status re-evaluation of a record (langual.py lines 217-225): only a term
      that is neither ignored nor deprecated is looked at, its ACTIVE record is merged
      again, and it can only move to deprecated. */
  function Review(e: Entity, active: Option<string>, sn: Option<string>): (r: Entity)
    ensures e.status == Ignore || e.status == Deprecated ==> r == e
    ensures r.status == e.status || r.status == Deprecated
    ensures e.status != Ignore && e.status != Deprecated ==>
              (r.status == Deprecated <==>
                 XmlValue(active) == Some("False") || (sn.Some? && Contains(sn.value, NoNewIndexing)))
    ensures e.status != Ignore && e.status != Deprecated ==>
              r.attrs == SetAttributeDiff(e.attrs, "active", XmlValue(active), None)
    ensures r == e.(status := r.status, attrs := r.attrs)
  {
    if e.status == Ignore || e.status == Deprecated then e
    else
      var activeValue := XmlValue(active);
      var attrs := SetAttributeDiff(e.attrs, "active", activeValue, None);
      var retired := activeValue == Some("False") || (sn.Some? && sn.value != "" && Contains(sn.value, NoNewIndexing));
      e.(attrs := attrs, status := if retired then Deprecated else e.status)
  }

  /** Status never improves: an ignored term stays ignored, a deprecated one stays deprecated. */
  lemma {:induction false} ReviewsOnlyDowngrade(e: Entity, reviews: seq<(Option<string>, Option<string>)>)
    ensures var r := ReviewAll(e, reviews);
            (e.status == Ignore ==> r.status == Ignore)
            && (e.status == Deprecated ==> r.status == Deprecated)
            && (r.status == e.status || r.status == Deprecated)
    decreases |reviews|
  {
    if reviews != [] {
      ReviewsOnlyDowngrade(Review(e, reviews[0].0, reviews[0].1), reviews[1..]);
    }
  }

  /** Successive yearly imports reviewing the same entity. */
  function ReviewAll(e: Entity, reviews: seq<(Option<string>, Option<string>)>): Entity
    decreases |reviews|
  {
    if reviews == [] then e else ReviewAll(Review(e, reviews[0].0, reviews[0].1), reviews[1..])
  }

  /** The keys `load_synonyms` pops from `xrefs` before re-keying an additive code. */
  predicate IsCodexText(t: string) {
    |t| >= 4 && t[..4] == "INS "
  }

  predicate IsEuropeText(t: string) {
    |t| >= 2 && t[..2] == "E "
  }

  /** Neither an INS nor an E code: an ordinary synonym. */
  predicate PlainText(t: string) {
    !IsCodexText(t) && !IsEuropeText(t)
  }

  /** The old-style `xrefs` key that `load_synonyms` drops for an additive code. */
  function PoppedKey(t: string): Option<string> {
    if IsCodexText(t) then Some("Codex:" + t)
    else if IsEuropeText(t) then Some("Europe:" + t)
    else None
  }

  /** The texts of the elements that are ordinary synonyms. */
  function PlainTexts(texts: seq<Option<string>>): set<string> {
    set i | 0 <= i < |texts| && texts[i].Some? && PlainText(texts[i].value) :: texts[i].value
  }

  /** The keys dropped from `xrefs` for the elements. */
  function PoppedKeys(texts: seq<Option<string>>): set<string> {
    set i | 0 <= i < |texts| && texts[i].Some? && PoppedKey(texts[i].value).Some? :: PoppedKey(texts[i].value).value
  }

  lemma TextSetsGrow(texts: seq<Option<string>>)
    requires texts != [] && texts[|texts| - 1].Some?
    ensures var front, t := texts[..|texts| - 1], texts[|texts| - 1].value;
            PlainTexts(texts) == PlainTexts(front) + (if PlainText(t) then {t} else {})
            && PoppedKeys(texts) == PoppedKeys(front) + (if PoppedKey(t).Some? then {PoppedKey(t).value} else {})
  {
    var front := texts[..|texts| - 1];
    assert forall i :: 0 <= i < |front| ==> front[i] == texts[i];
  }

  /** What `load_synonyms` keeps true of `synonyms` after taking the texts in `plain`. */
  ghost predicate SynonymsKept(synonyms0: Attrs, synonyms: Attrs, plain: set<string>) {
    synonyms.Keys == synonyms0.Keys + plain
    && (forall k :: k in synonyms ==> (synonyms[k].locked <==> k in synonyms0 && synonyms0[k].locked))
    && (forall k :: k in synonyms0 && synonyms0[k].locked ==>
          synonyms[k].value == synonyms0[k].value && synonyms[k].language == synonyms0[k].language)
    && (forall k :: k in plain && (k in synonyms0 ==> !synonyms0[k].locked) ==> synonyms[k].value == Some(""))
  }

  /** What `load_synonyms` keeps true of `xrefs` after dropping the keys in `popped`. */
  ghost predicate XrefsKept(xrefs0: Attrs, xrefs: Attrs, popped: set<string>) {
    "Codex:" !in popped && "Europe:" !in popped
    && (forall k :: k in xrefs0 && k !in popped ==> k in xrefs)
    && (forall k :: k in xrefs ==> k in xrefs0 || k == "Codex:" || k == "Europe:")
    && NoNewLocks(xrefs0, xrefs)
    && (forall k :: k in xrefs && k in xrefs0 && xrefs0[k].locked ==>
          xrefs[k].value == xrefs0[k].value && xrefs[k].language == xrefs0[k].language && xrefs[k].locked)
  }

  lemma SynonymStep(synonyms0: Attrs, synonyms: Attrs, plain: set<string>, t: string)
    requires SynonymsKept(synonyms0, synonyms, plain)
    ensures SynonymsKept(synonyms0, SetAttributeDiff(synonyms, t, Some(""), Some("en")), plain + {t})
  {
  }

  lemma XrefStep(xrefs0: Attrs, xrefs: Attrs, popped: set<string>, t: string, drop: string, key: string, code: string)
    requires XrefsKept(xrefs0, xrefs, popped)
    requires key == "Codex:" || key == "Europe:"
    requires drop != "Codex:" && drop != "Europe:"
    ensures XrefsKept(xrefs0, SetAttributeDiff(xrefs - {drop}, key, Some(code), None), popped + {drop})
  {
    var m := xrefs - {drop};
    var x := SetAttributeDiff(m, key, Some(code), None);
    assert m.Keys == xrefs.Keys - {drop};
    assert forall k :: k in m ==> m[k] == xrefs[k];
    assert NoNewLocks(xrefs0, x) by {
      forall k | k in x && x[k].locked ensures k in xrefs0 && xrefs0[k].locked {
        assert k in m;
      }
    }
  }

  /** The `xrefs` key and code an additive text is re-keyed to. */
  function XrefCode(t: string): (r: Option<(string, string)>)
    ensures r.Some? <==> !PlainText(t)
    ensures r.Some? ==> (r.value.0 == "Codex:" || r.value.0 == "Europe:") && PoppedKey(t) == Some(r.value.0 + t)
  {
    if IsCodexText(t) then Some(("Codex:", t[4..]))
    else if IsEuropeText(t) then Some(("Europe:", t[2..]))
    else None
  }

  /** The code of the last element re-keyed to `key`, if any. */
  function LastCode(texts: seq<Option<string>>, key: string): Option<string> {
    if texts == [] then None
    else
      var t := texts[|texts| - 1];
      if t.Some? && XrefCode(t.value).Some? && XrefCode(t.value).value.0 == key then Some(XrefCode(t.value).value.1)
      else LastCode(texts[..|texts| - 1], key)
  }

  /** `xrefs[key]` holds the last code re-keyed to it unless the record was locked,
      and is untouched when no element is re-keyed to it. */
  ghost predicate CodeSet(xrefs0: Attrs, xrefs: Attrs, texts: seq<Option<string>>, key: string) {
    var c := LastCode(texts, key);
    (c.Some? && (key in xrefs0 ==> !xrefs0[key].locked) ==> key in xrefs && xrefs[key].value == c)
    && (c.None? ==> (key in xrefs <==> key in xrefs0) && (key in xrefs0 ==> xrefs[key] == xrefs0[key]))
  }

  /** The other `xrefs` entries are untouched and the popped keys are gone. */
  ghost predicate OtherXrefsKept(xrefs0: Attrs, xrefs: Attrs, popped: set<string>) {
    (forall k :: k in xrefs0 && k !in popped && k != "Codex:" && k != "Europe:" ==> k in xrefs && xrefs[k] == xrefs0[k])
    && (forall k :: k in popped ==> k !in xrefs)
  }

  /** The synonyms not among the texts are untouched; an unlocked one among them is
      English unless it already held the empty value (then its language stays). */
  ghost predicate SynonymsSet(synonyms0: Attrs, synonyms: Attrs, plain: set<string>) {
    (forall k :: k in synonyms0 && k !in plain ==> k in synonyms && synonyms[k] == synonyms0[k])
    && (forall k :: k in plain && (k in synonyms0 ==> !synonyms0[k].locked) ==>
          k in synonyms
          && synonyms[k].language == (if k in synonyms0 && synonyms0[k].value == Some("") then synonyms0[k].language else Some("en")))
  }

  lemma SynonymSetStep(synonyms0: Attrs, synonyms: Attrs, plain: set<string>, t: string)
    requires SynonymsKept(synonyms0, synonyms, plain) && SynonymsSet(synonyms0, synonyms, plain)
    ensures SynonymsSet(synonyms0, SetAttributeDiff(synonyms, t, Some(""), Some("en")), plain + {t})
  {
    var next := SetAttributeDiff(synonyms, t, Some(""), Some("en"));
    forall k | k in synonyms0 && k !in plain + {t} ensures k in next && next[k] == synonyms0[k] {
      assert next[k] == synonyms[k];
    }
  }

  lemma CodeSetStep(xrefs0: Attrs, xrefs: Attrs, texts: seq<Option<string>>, popped: set<string>, key: string)
    requires texts != [] && texts[|texts| - 1].Some?
    requires key == "Codex:" || key == "Europe:"
    requires XrefsKept(xrefs0, xrefs, popped)
    requires CodeSet(xrefs0, xrefs, texts[..|texts| - 1], key)
    ensures CodeSet(xrefs0, LoadSynonym(xrefs, map[], texts[|texts| - 1].value).0, texts, key)
  {
    var t := texts[|texts| - 1].value;
    var next := LoadSynonym(xrefs, map[], t).0;
    var x := XrefCode(t);
    if x.Some? {
      var drop := PoppedKey(t).value;
      assert next == SetAttributeDiff(xrefs - {drop}, x.value.0, Some(x.value.1), None);
      if x.value.0 == key {
        assert LastCode(texts, key) == Some(x.value.1);
        assert key in xrefs && xrefs[key].locked ==> key in xrefs0 && xrefs0[key].locked;
      } else {
        assert LastCode(texts, key) == LastCode(texts[..|texts| - 1], key);
        assert key != drop;
      }
    } else {
      assert next == xrefs;
    }
  }

  lemma OtherXrefsStep(xrefs0: Attrs, xrefs: Attrs, popped: set<string>, t: string)
    requires OtherXrefsKept(xrefs0, xrefs, popped) && "Codex:" !in popped && "Europe:" !in popped
    ensures OtherXrefsKept(xrefs0, LoadSynonym(xrefs, map[], t).0, popped + (if PoppedKey(t).Some? then {PoppedKey(t).value} else {}))
  {
    var x := XrefCode(t);
    if x.Some? {
      var drop := PoppedKey(t).value;
      var next := LoadSynonym(xrefs, map[], t).0;
      assert next == SetAttributeDiff(xrefs - {drop}, x.value.0, Some(x.value.1), None);
      assert drop != "Codex:" && drop != "Europe:";
      forall k | k in popped + {drop} ensures k !in next {
        assert k != x.value.0;
      }
    } else {
      assert popped + {} == popped;
    }
  }

  /** What one SYNONYM text does to `(xrefs, synonyms)`. */
  function LoadSynonym(xrefs: Attrs, synonyms: Attrs, t: string): (Attrs, Attrs) {
    if IsCodexText(t) then (SetAttributeDiff(xrefs - {"Codex:" + t}, "Codex:", Some(t[4..]), None), synonyms)
    else if IsEuropeText(t) then (SetAttributeDiff(xrefs - {"Europe:" + t}, "Europe:", Some(t[2..]), None), synonyms)
    else (xrefs, SetAttributeDiff(synonyms, t, Some(""), Some("en")))
  }

  /** The SYNONYM elements applied in order; `None` where Python stops on an element
      without text. */
  function LoadedSynonyms(xrefs0: Attrs, synonyms0: Attrs, texts: seq<Option<string>>): Option<(Attrs, Attrs)> {
    if texts == [] then Some((xrefs0, synonyms0))
    else
      var prev := LoadedSynonyms(xrefs0, synonyms0, texts[..|texts| - 1]);
      var last := texts[|texts| - 1];
      if prev.None? || last.None? then None else Some(LoadSynonym(prev.value.0, prev.value.1, last.value))
  }

  /** Every SYNONYM element has text. */
  predicate AllTexts(texts: seq<Option<string>>) {
    forall i :: 0 <= i < |texts| ==> texts[i].Some?
  }

  /** The load fails exactly when some element has no text. */
  lemma {:induction false} LoadedSynonymsFail(xrefs0: Attrs, synonyms0: Attrs, texts: seq<Option<string>>)
    ensures LoadedSynonyms(xrefs0, synonyms0, texts).Some? <==> AllTexts(texts)
  {
    if texts != [] {
      var front := texts[..|texts| - 1];
      LoadedSynonymsFail(xrefs0, synonyms0, front);
      if AllTexts(texts) {
        assert forall i :: 0 <= i < |front| ==> front[i] == texts[i];
      }
      if !AllTexts(texts) && texts[|texts| - 1].Some? {
        var i :| 0 <= i < |texts| && texts[i].None?;
        assert front[i] == texts[i];
      }
    }
  }

  /** One element keeps what `load_synonyms` promises. */
  lemma LoadSynonymStep(xrefs0: Attrs, synonyms0: Attrs, xrefs: Attrs, synonyms: Attrs, t: string,
                        plain: set<string>, popped: set<string>)
    requires SynonymsKept(synonyms0, synonyms, plain) && XrefsKept(xrefs0, xrefs, popped)
    ensures SynonymsKept(synonyms0, LoadSynonym(xrefs, synonyms, t).1, plain + (if PlainText(t) then {t} else {}))
    ensures XrefsKept(xrefs0, LoadSynonym(xrefs, synonyms, t).0, popped + (if PoppedKey(t).Some? then {PoppedKey(t).value} else {}))
  {
    var next := LoadSynonym(xrefs, synonyms, t);
    if IsCodexText(t) {
      XrefStep(xrefs0, xrefs, popped, t, "Codex:" + t, "Codex:", t[4..]);
      assert next.1 == synonyms && PoppedKey(t) == Some("Codex:" + t) && !PlainText(t);
      assert plain + {} == plain;
    } else if IsEuropeText(t) {
      XrefStep(xrefs0, xrefs, popped, t, "Europe:" + t, "Europe:", t[2..]);
      assert next.1 == synonyms && PoppedKey(t) == Some("Europe:" + t) && !PlainText(t);
      assert plain + {} == plain;
    } else {
      SynonymStep(synonyms0, synonyms, plain, t);
      assert next.0 == xrefs && PoppedKey(t).None? && PlainText(t);
      assert popped + {} == popped;
    }
  }

  /** What a successful `load_synonyms` does: the ordinary synonyms are added (with an
      empty value unless locked), the INS/E codes re-keyed into `xrefs`, and no lock
      is broken. */
  lemma {:induction false} LoadedSynonymsKept(xrefs0: Attrs, synonyms0: Attrs, texts: seq<Option<string>>)
    requires LoadedSynonyms(xrefs0, synonyms0, texts).Some?
    ensures SynonymsKept(synonyms0, LoadedSynonyms(xrefs0, synonyms0, texts).value.1, PlainTexts(texts))
    ensures XrefsKept(xrefs0, LoadedSynonyms(xrefs0, synonyms0, texts).value.0, PoppedKeys(texts))
    ensures SynonymsSet(synonyms0, LoadedSynonyms(xrefs0, synonyms0, texts).value.1, PlainTexts(texts))
    ensures OtherXrefsKept(xrefs0, LoadedSynonyms(xrefs0, synonyms0, texts).value.0, PoppedKeys(texts))
    ensures CodeSet(xrefs0, LoadedSynonyms(xrefs0, synonyms0, texts).value.0, texts, "Codex:")
    ensures CodeSet(xrefs0, LoadedSynonyms(xrefs0, synonyms0, texts).value.0, texts, "Europe:")
  {
    if texts != [] {
      var front := texts[..|texts| - 1];
      LoadedSynonymsKept(xrefs0, synonyms0, front);
      TextSetsGrow(texts);
      var prev := LoadedSynonyms(xrefs0, synonyms0, front).value;
      var t := texts[|texts| - 1].value;
      LoadSynonymStep(xrefs0, synonyms0, prev.0, prev.1, t, PlainTexts(front), PoppedKeys(front));
      LoadSynonymXrefs(prev.0, prev.1, t);
      CodeSetStep(xrefs0, prev.0, texts, PoppedKeys(front), "Codex:");
      CodeSetStep(xrefs0, prev.0, texts, PoppedKeys(front), "Europe:");
      OtherXrefsStep(xrefs0, prev.0, PoppedKeys(front), t);
      if PlainText(t) {
        SynonymSetStep(synonyms0, prev.1, PlainTexts(front), t);
      } else {
        assert PlainTexts(front) + {} == PlainTexts(front);
      }
    }
  }

  /** The `xrefs` half of one element does not depend on the synonyms. */
  lemma LoadSynonymXrefs(xrefs: Attrs, synonyms: Attrs, t: string)
    ensures LoadSynonym(xrefs, synonyms, t).0 == LoadSynonym(xrefs, map[], t).0
  {}

  /** `load_synonyms`: an `INS nnn` synonym becomes the `Codex:` cross-reference
      (dropping any old `Codex:INS nnn` key), an `E nnn` synonym the `Europe:` one,
      and any other text an English synonym with an empty value. A synonym element
      without text makes Python stop (`ok` is false). */
  method LoadSynonyms(xrefs0: Attrs, synonyms0: Attrs, texts: seq<Option<string>>)
    returns (xrefs: Attrs, synonyms: Attrs, ok: bool)
    ensures ok <==> LoadedSynonyms(xrefs0, synonyms0, texts).Some?
    ensures ok ==> LoadedSynonyms(xrefs0, synonyms0, texts).value == (xrefs, synonyms)
  {
    xrefs, synonyms := xrefs0, synonyms0;
    var i := 0;
    while i < |texts|
      invariant 0 <= i <= |texts|
      invariant LoadedSynonyms(xrefs0, synonyms0, texts[..i]) == Some((xrefs, synonyms))
    {
      assert texts[..i + 1][..i] == texts[..i];
      if texts[i].None? {
        LoadedSynonymsFail(xrefs0, synonyms0, texts);
        ok := false;
        return;
      }
      var t := texts[i].value;
      if IsCodexText(t) {
        xrefs := SetAttributeDiff(xrefs - {"Codex:" + t}, "Codex:", Some(t[4..]), None);
      } else if IsEuropeText(t) {
        xrefs := SetAttributeDiff(xrefs - {"Europe:" + t}, "Europe:", Some(t[2..]), None);
      } else {
        synonyms := SetAttributeDiff(synonyms, t, Some(""), Some("en"));
      }
      i := i + 1;
    }
    assert texts[..i] == texts;
    ok := true;
  }

  // ---------------------------------------------------------------------
  // What one import run may do to a stored entity

  /** Status only moves down to deprecated, and ignore and deprecated are final. */
  predicate StatusFollows(s0: Status, s: Status) {
    (s0 == Ignore ==> s == Ignore) && (s0 == Deprecated ==> s == Deprecated) && (s == s0 || s == Deprecated)
  }

  /** The old-style additive-code cross-references `load_synonyms` may drop. */
  predicate Poppable(k: string) {
    (|k| >= 10 && k[..10] == "Codex:INS ") || (|k| >= 9 && k[..9] == "Europe:E ")
  }

  ghost predicate XrefLocksKept(m0: Attrs, m: Attrs) {
    (forall k :: k in m0 && m0[k].locked && !Poppable(k) ==>
       k in m && m[k].locked && m[k].value == m0[k].value && m[k].language == m0[k].language)
    && NoNewLocks(m0, m)
  }

  /** The differential guarantees of an import on one stored entity: its id, a status
      that only downgrades, an ontology id kept once assigned, every locked record
      kept (bar the additive-code cross-references), and `is_a`, attribute, synonym
      and `taxon` entries only ever added. */
  ghost predicate Evolves(e0: Entity, e: Entity) {
    e.databaseId == e0.databaseId
    && StatusFollows(e0.status, e.status)
    && (e0.ontologyId.Some? ==> e.ontologyId == e0.ontologyId)
    && e0.isAOrder <= e.isAOrder
    && LocksKept(e0.isA, e.isA) && LocksKept(e0.attrs, e.attrs) && LocksKept(e0.synonyms, e.synonyms)
    && e0.isA.Keys <= e.isA.Keys && e0.attrs.Keys <= e.attrs.Keys && e0.synonyms.Keys <= e.synonyms.Keys
    && e0.taxon.Keys <= e.taxon.Keys
    && XrefLocksKept(e0.xrefs, e.xrefs)
    && TaxonLocksKept(e0.taxon, e.taxon)
  }

  lemma EvolvesRefl(e: Entity)
    ensures Evolves(e, e)
  {
  }

  lemma XrefLocksKeptRefl(m: Attrs)
    ensures XrefLocksKept(m, m)
  {
  }

  lemma XrefLocksKeptTrans(m0: Attrs, m1: Attrs, m2: Attrs)
    requires XrefLocksKept(m0, m1) && XrefLocksKept(m1, m2)
    ensures XrefLocksKept(m0, m2)
  {
  }

  lemma EvolvesTrans(e0: Entity, e1: Entity, e2: Entity)
    requires Evolves(e0, e1) && Evolves(e1, e2)
    ensures Evolves(e0, e2)
  {
    LocksKeptTrans(e0.isA, e1.isA, e2.isA);
    LocksKeptTrans(e0.attrs, e1.attrs, e2.attrs);
    LocksKeptTrans(e0.synonyms, e1.synonyms, e2.synonyms);
    XrefLocksKeptTrans(e0.xrefs, e1.xrefs, e2.xrefs);
    TaxonLocksKeptTrans(e0.taxon, e1.taxon, e2.taxon);
    assert e0.isAOrder <= e2.isAOrder by {
      assert e0.isAOrder == e1.isAOrder[..|e0.isAOrder|];
      assert e1.isAOrder == e2.isAOrder[..|e1.isAOrder|];
    }
  }

  lemma XrefMergeKeepsLocks(m: Attrs, key: string, value: Option<string>, language: Option<string>)
    ensures XrefLocksKept(m, SetAttributeDiff(m, key, value, language))
  {
  }

  /** Each step of the reconciliation loop keeps the differential guarantees. */
  lemma ParentEvolves(e: Entity, parentOntologyId: string, parentId: string)
    requires IsAOrdered(e)
    ensures Evolves(e, AddParent(e, parentOntologyId, parentId))
  {
    MergeKeepsLocks(e.isA, parentOntologyId, Some(parentId), None);
  }

  lemma ReviewEvolves(e: Entity, active: Option<string>, sn: Option<string>)
    ensures Evolves(e, Review(e, active, sn))
  {
    MergeKeepsLocks(e.attrs, "active", XmlValue(active), None);
  }

  lemma XrefMergeEvolves(e: Entity, key: string, value: Option<string>, language: Option<string>)
    ensures Evolves(e, e.(xrefs := SetAttributeDiff(e.xrefs, key, value, language)))
  {
    XrefMergeKeepsLocks(e.xrefs, key, value, language);
  }

  lemma AttrMergeEvolves(e: Entity, key: string, value: Option<string>, language: Option<string>)
    ensures Evolves(e, e.(attrs := SetAttributeDiff(e.attrs, key, value, language)))
  {
    MergeKeepsLocks(e.attrs, key, value, language);
  }

  lemma TaxonEvolves(e: Entity, k: TaxonKey)
    ensures Evolves(e, AddTaxon(e, k))
  {
    AddTaxonKeepsLocks(e, k);
  }

  lemma TaxaOfEvolves(e: Entity, lines: seq<Option<TaxonMatch>>)
    ensures Evolves(e, TaxaOf(e, lines))
  {
    TaxaOfKeepsLocks(e, lines);
    XrefLocksKeptRefl(e.xrefs);
    TaxonXrefsEvolve(e, TaxaOf(e, lines));
  }

  lemma OntologyIdEvolves(e: Entity, id: string)
    requires e.ontologyId.None?
    ensures Evolves(e, e.(ontologyId := Some(id)))
  {
  }

  /** A write-back keeps the differential guarantees, provided the NCBITaxon record
      it may replace is not locked (which holds for every queued lookup). */
  lemma WriteBackEvolves(e: Entity, taxonName: string, provider: string, hit: Option<Hit>)
    requires taxonName in e.taxon && "NCBITaxon" in e.taxon[taxonName] ==> !e.taxon[taxonName]["NCBITaxon"].locked
    requires WriteBack(e, taxonName, provider, hit).Ok?
    ensures Evolves(e, WriteBack(e, taxonName, provider, hit).value)
  {
    var r := WriteBack(e, taxonName, provider, hit).value;
    var t := e.taxon[taxonName];
    var t' := r.taxon[taxonName];
    assert LocksKept(t, t') by {
      if hit.Some? && RankAccepted(taxonName, hit.value.rank) {
        MergeKeepsLocks(t, "NCBITaxon", Some(hit.value.taxonId), None);
      }
    }
    TaxonEntryEvolves(e.taxon, taxonName, t');
    assert XrefLocksKept(e.xrefs, r.xrefs) by {
      if hit.Some? && RankAccepted(taxonName, hit.value.rank) {
        XrefMergeKeepsLocks(e.xrefs, "EOL", Some(hit.value.page), None);
      } else {
        assert r.xrefs == e.xrefs;
        XrefLocksKeptRefl(e.xrefs);
      }
    }
    TaxonXrefsEvolve(e, r);
  }

  /** A change confined to the taxon entries and the cross-references evolves the
      entity when each of the two keeps its locks. */
  lemma TaxonXrefsEvolve(e: Entity, r: Entity)
    requires r == e.(taxon := r.taxon, xrefs := r.xrefs)
    requires XrefLocksKept(e.xrefs, r.xrefs) && TaxonLocksKept(e.taxon, r.taxon)
    ensures Evolves(e, r)
  {
  }

  /** Replacing one taxon entry by one that keeps its locks keeps the taxon guarantees. */
  lemma TaxonEntryEvolves(taxon: map<string, Attrs>, name: string, t: Attrs)
    requires name in taxon && taxon[name].Keys <= t.Keys && LocksKept(taxon[name], t)
    ensures TaxonLocksKept(taxon, taxon[name := t])
  {
  }

  /** Every key `load_synonyms` drops from `xrefs` is an old-style additive-code key. */
  lemma PoppedKeysPoppable(texts: seq<Option<string>>)
    ensures forall k :: k in PoppedKeys(texts) ==> Poppable(k)
  {
    forall k | k in PoppedKeys(texts) ensures Poppable(k) {
      var i :| 0 <= i < |texts| && texts[i].Some? && PoppedKey(texts[i].value).Some? && PoppedKey(texts[i].value).value == k;
      var t := texts[i].value;
      if IsCodexText(t) {
        assert k[..10] == "Codex:" + t[..4];
      } else {
        assert k[..9] == "Europe:" + t[..2];
      }
    }
  }

  /** `load_synonyms` keeps the differential guarantees. */
  lemma SynonymsEvolve(e: Entity, texts: seq<Option<string>>, xrefs: Attrs, synonyms: Attrs)
    requires SynonymsKept(e.synonyms, synonyms, PlainTexts(texts))
    requires XrefsKept(e.xrefs, xrefs, PoppedKeys(texts))
    ensures Evolves(e, e.(xrefs := xrefs, synonyms := synonyms))
  {
    PoppedKeysPoppable(texts);
  }
}
