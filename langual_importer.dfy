// One run of the LanguaL importer (src/ontology/imports/langual/langual.py, class
// `Langual`): the term database loaded from JSON, the lookup-table override of
// ontology ids, the reconciliation loop over the XML descriptors, the queue of
// NCBITaxon lookups filled by `getFoodSource`, and their write-back.
module LangualImporter {
  import opened Wrappers
  import opened PyStr
  import opened AttributeStore
  import opened Store
  import opened OntologyIds
  import opened TaxonLookup
  import opened Reconcile

  /** Where the loop body left a descriptor. `Failed` is an uncaught Python
      exception: the run stops and the database is not written. */
  datatype Outcome =
    | Skipped                 // a facet this run does not handle
    | Failed(reason: string)
    | LaterParent             // a repeated multi-parent record: only its parent is added
    | Ignored                 // an ignored term: merging stops after the LANGUAL xref
    | Retired                 // a deprecated term: no facet or synonym work
    | Completed

  /** The Product Type run (facet A) and the main run split the descriptors. */
  predicate SkipsCategory(langualImport: bool, c: char) {
    if langualImport then c == 'A' else c != 'A'
  }

  /** The database id of a descriptor, `FTC` stripped. */
  function DescriptorKey(d: Descriptor): string
    requires d.ftc.Some?
  {
    Strip(d.ftc.value)
  }

  /** The order of the index's `OrderedDict` lists each key once. */
  ghost predicate IndexOrdered(index: map<string, Entity>, order: seq<string>) {
    (forall k :: k in index <==> k in order)
    && (forall i, j :: 0 <= i < j < |order| ==> order[i] != order[j])
  }

  /** The entity a descriptor works on: the stored one, or a new skeleton. */
  function Admitted(index: map<string, Entity>, d: Descriptor): Entity
    requires d.ftc.Some?
  {
    var key := DescriptorKey(d);
    if key in index then index[key] else NewEntity(key, XmlValue(d.active))
  }

  /** The `is_a` key for a BT code: the stored parent's ontology id (a KeyError if it
      has none, as for a new term naming itself), else `get_ontology_id` of the code. */
  function ParentOntologyId(index: map<string, Entity>, parent: string): (r: Result<string>)
    ensures parent in index ==> (r.Ok? <==> index[parent].ontologyId.Some?)
    ensures parent in index && r.Ok? ==> r.value == index[parent].ontologyId.value
    ensures parent !in index ==> r == GetOntologyId(parent)
  {
    if parent in index then
      if index[parent].ontologyId.Some? then Ok(index[parent].ontologyId.value) else Err("KeyError: ontology_id")
    else GetOntologyId(parent)
  }

  // ---------------------------------------------------------------------
  // The queue of NCBITaxon lookups

  /** The lookup providers, the keys of `NCBITaxon_lookup`. */
  const LookupProviders: set<string> := {"ITIS", "INDEX FUNGORUM"}

  /** The iteration order of `NCBITaxon_lookup`, a plain dictionary: one of the two. */
  predicate ProviderOrder(providers: seq<string>) {
    providers == ["ITIS", "INDEX FUNGORUM"] || providers == ["INDEX FUNGORUM", "ITIS"]
  }

  /** A queued lookup still points at a taxon entry of a stored entity that has a
      record for the provider and whose NCBITaxon record, if any, is not locked. */
  ghost predicate QueuedValid(index: map<string, Entity>, provider: string, q: Queued) {
    q.key in index && q.taxonName in index[q.key].taxon
    && provider in index[q.key].taxon[q.taxonName]
    && ("NCBITaxon" in index[q.key].taxon[q.taxonName] ==> !index[q.key].taxon[q.taxonName]["NCBITaxon"].locked)
  }

  ghost predicate QueueValid(index: map<string, Entity>, queue: map<string, seq<Queued>>) {
    forall p, q :: p in queue && q in queue[p] ==> QueuedValid(index, p, q)
  }

  /** Every queued lookup has been answered: its taxon entry has an NCBITaxon record. */
  ghost predicate Answered(index: map<string, Entity>, queue: map<string, seq<Queued>>) {
    QueueValid(index, queue)
    && forall p, q :: p in queue && q in queue[p] ==> "NCBITaxon" in index[q.key].taxon[q.taxonName]
  }

  /** Every stored entity evolves as an import allows, and no entity disappears. */
  ghost predicate Evolved(index0: map<string, Entity>, index: map<string, Entity>) {
    forall k :: k in index0 ==> k in index && Evolves(index0[k], index[k])
  }

  lemma EvolvedRefl(index: map<string, Entity>)
    ensures Evolved(index, index)
  {
    forall k | k in index ensures Evolves(index[k], index[k]) {
      EvolvesRefl(index[k]);
    }
  }

  lemma EvolvedUpdate(index0: map<string, Entity>, key: string, e: Entity)
    requires key in index0 ==> Evolves(index0[key], e)
    ensures Evolved(index0, index0[key := e])
  {
    forall k | k in index0 ensures k in index0[key := e] && Evolves(index0[k], index0[key := e][k]) {
      if k != key {
        EvolvesRefl(index0[k]);
      }
    }
  }

  lemma EvolvedTrans(index0: map<string, Entity>, index1: map<string, Entity>, index2: map<string, Entity>)
    requires Evolved(index0, index1) && Evolved(index1, index2)
    ensures Evolved(index0, index2)
  {
    forall k | k in index0 ensures k in index2 && Evolves(index0[k], index2[k]) {
      EvolvesTrans(index0[k], index1[k], index2[k]);
    }
  }

  /** A queued lookup stays valid while its entity evolves. */
  lemma QueuedValidEvolved(index0: map<string, Entity>, index: map<string, Entity>, p: string, q: Queued)
    requires QueuedValid(index0, p, q) && Evolved(index0, index)
    ensures QueuedValid(index, p, q)
  {
    var t0 := index0[q.key].taxon[q.taxonName];
    var t := index[q.key].taxon[q.taxonName];
    assert t0.Keys <= t.Keys && NoNewLocks(t0, t);
  }

  lemma QueueValidEvolved(index0: map<string, Entity>, index: map<string, Entity>, queue: map<string, seq<Queued>>)
    requires QueueValid(index0, queue) && Evolved(index0, index)
    ensures QueueValid(index, queue)
  {
    forall p, q | p in queue && q in queue[p] ensures QueuedValid(index, p, q) {
      QueuedValidEvolved(index0, index, p, q);
    }
  }

  /** The lookups `getFoodSource` queues for an entity are valid once the entity holds
      the merged taxon entries. */
  lemma QueueExtended(index: map<string, Entity>, queue0: map<string, seq<Queued>>, queue: map<string, seq<Queued>>,
                      key: string, e: Entity, lines: seq<Option<TaxonMatch>>)
    requires QueueValid(index, queue0)
    requires key in index && index[key].taxon == TaxaOf(e, lines).taxon
    requires queue.Keys == queue0.Keys
    requires forall p :: p in queue ==> queue[p] == queue0[p] + QueuedOf(e, lines, key, p)
    ensures QueueValid(index, queue)
  {
    forall p, q | p in queue && q in queue[p] ensures QueuedValid(index, p, q) {
      if q !in queue0[p] {
        QueuedOfSound(e, lines, key, p);
      }
    }
  }

  // ---------------------------------------------------------------------
  // The lookup-table override of ontology ids

  /** `ontology_index[new] = database_id` followed by `ontology_index.pop(old, None)`:
      when the lookup gives the id the entity already has, the entry is dropped. */
  function ReplaceOntologyId(m: map<string, string>, databaseId: string, oldId: string, newId: string): (r: map<string, string>)
    ensures oldId != newId ==> newId in r && r[newId] == databaseId && oldId !in r
    ensures oldId == newId ==> newId !in r
    ensures forall k :: k != oldId && k != newId ==> (k in r <==> k in m) && (k in r ==> r[k] == m[k])
  {
    m[newId := databaseId] - {oldId}
  }

  /** An entity after the override. */
  function Retarget(e: Entity, lookup: map<string, string>): Entity {
    if e.databaseId in lookup then e.(ontologyId := Some(lookup[e.databaseId])) else e
  }

  function Retargeted(index: map<string, Entity>, lookup: map<string, string>): map<string, Entity> {
    map k | k in index :: Retarget(index[k], lookup)
  }

  /** The ontology index after the override has visited `keys` in order. */
  function OverriddenIndex(m: map<string, string>, index: map<string, Entity>, keys: seq<string>,
                           lookup: map<string, string>): map<string, string>
    requires forall i :: 0 <= i < |keys| ==> keys[i] in index
  {
    if keys == [] then m
    else
      var prev := OverriddenIndex(m, index, keys[..|keys| - 1], lookup);
      var e := index[keys[|keys| - 1]];
      if e.databaseId in lookup && e.ontologyId.Some? then ReplaceOntologyId(prev, e.databaseId, e.ontologyId.value, lookup[e.databaseId])
      else prev
  }

  lemma OverriddenIndexStep(m: map<string, string>, index: map<string, Entity>, keys: seq<string>, n: nat,
                            lookup: map<string, string>)
    requires n < |keys| && forall i :: 0 <= i < |keys| ==> keys[i] in index
    ensures var prev := OverriddenIndex(m, index, keys[..n], lookup);
            var e := index[keys[n]];
            OverriddenIndex(m, index, keys[..n + 1], lookup)
              == if e.databaseId in lookup && e.ontologyId.Some? then ReplaceOntologyId(prev, e.databaseId, e.ontologyId.value, lookup[e.databaseId])
                 else prev
  {
    assert keys[..n + 1][..n] == keys[..n];
  }

  /** The ids the override touches: the old and new ids of the overridden entities. */
  ghost predicate TouchedBy(index: map<string, Entity>, keys: seq<string>, lookup: map<string, string>, id: string)
    requires forall i :: 0 <= i < |keys| ==> keys[i] in index
  {
    exists i :: 0 <= i < |keys| && index[keys[i]].databaseId in lookup
                && (index[keys[i]].ontologyId == Some(id) || lookup[index[keys[i]].databaseId] == id)
  }

  /** The override leaves every other ontology-index entry alone. */
  lemma {:induction false} OverrideKeepsOthers(m: map<string, string>, index: map<string, Entity>, keys: seq<string>,
                                               lookup: map<string, string>, id: string)
    requires forall i :: 0 <= i < |keys| ==> keys[i] in index
    requires !TouchedBy(index, keys, lookup, id)
    ensures (id in OverriddenIndex(m, index, keys, lookup) <==> id in m)
    ensures id in m ==> OverriddenIndex(m, index, keys, lookup)[id] == m[id]
  {
    if keys != [] {
      var front := keys[..|keys| - 1];
      assert forall i :: 0 <= i < |front| ==> front[i] == keys[i];
      assert !TouchedBy(index, front, lookup, id);
      OverrideKeepsOthers(m, index, front, lookup, id);
      var e := index[keys[|keys| - 1]];
      assert !(e.databaseId in lookup && (e.ontologyId == Some(id) || lookup[e.databaseId] == id));
    }
  }

  /** The last entity the override visits is found under its new id, unless the new
      id is the one it had. */
  lemma OverrideFindsLast(m: map<string, string>, index: map<string, Entity>, keys: seq<string>, lookup: map<string, string>)
    requires keys != [] && forall i :: 0 <= i < |keys| ==> keys[i] in index
    requires var e := index[keys[|keys| - 1]]; e.databaseId in lookup && e.ontologyId.Some?
    ensures var e := index[keys[|keys| - 1]];
            var r := OverriddenIndex(m, index, keys, lookup);
            (e.ontologyId.value != lookup[e.databaseId] ==> r[lookup[e.databaseId]] == e.databaseId && e.ontologyId.value !in r)
            && (e.ontologyId.value == lookup[e.databaseId] ==> lookup[e.databaseId] !in r)
  {
  }

  // ---------------------------------------------------------------------
  // The NCBITaxon write-back

  /** One queued lookup together with the provider whose list holds it. */
  datatype Pending = Pending(provider: string, entry: Queued)

  function Tagged(provider: string, qs: seq<Queued>): (r: seq<Pending>)
    ensures |r| == |qs| && forall i :: 0 <= i < |qs| ==> r[i] == Pending(provider, qs[i])
  {
    seq(|qs|, i requires 0 <= i < |qs| => Pending(provider, qs[i]))
  }

  /** The write-back visits the providers in dictionary order and each list in order. */
  function PendingOf(queue: map<string, seq<Queued>>, providers: seq<string>): seq<Pending>
    requires forall i :: 0 <= i < |providers| ==> providers[i] in queue
  {
    if providers == [] then []
    else
      var p := providers[|providers| - 1];
      PendingOf(queue, providers[..|providers| - 1]) + Tagged(p, queue[p])
  }

  /** Each pending lookup comes from the queue, and every queued lookup is pending. */
  lemma {:induction false} PendingOfElements(queue: map<string, seq<Queued>>, providers: seq<string>)
    requires forall i :: 0 <= i < |providers| ==> providers[i] in queue
    ensures forall pe :: pe in PendingOf(queue, providers) ==> pe.provider in providers && pe.entry in queue[pe.provider]
    ensures forall p, q :: p in providers && q in queue[p] ==> Pending(p, q) in PendingOf(queue, providers)
  {
    if providers != [] {
      var front := providers[..|providers| - 1];
      var p := providers[|providers| - 1];
      PendingOfElements(queue, front);
      forall pe | pe in PendingOf(queue, providers) ensures pe.provider in providers && pe.entry in queue[pe.provider] {
        if pe !in PendingOf(queue, front) {
          var i :| 0 <= i < |queue[p]| && Tagged(p, queue[p])[i] == pe;
        }
      }
      forall p', q | p' in providers && q in queue[p'] ensures Pending(p', q) in PendingOf(queue, providers) {
        if p' == p {
          var i :| 0 <= i < |queue[p]| && queue[p][i] == q;
          assert Tagged(p, queue[p])[i] == Pending(p, q);
        } else {
          var j :| 0 <= j < |providers| && providers[j] == p';
          assert front[j] == p';
        }
      }
    }
  }

  /** `provider_ncbitaxon_map.get(provider_id)`. */
  function HitFor(ncbi: map<string, Hit>, providerId: string): Option<Hit> {
    if providerId in ncbi then Some(ncbi[providerId]) else None
  }

  /** The EOL answer for a pending lookup is a rank mismatch. */
  predicate Mismatch(pe: Pending, ncbi: map<string, Hit>) {
    pe.entry.providerId in ncbi && !RankAccepted(pe.entry.taxonName, ncbi[pe.entry.providerId].rank)
  }

  /** One pending lookup written back into the index. */
  function WriteBackAt(index: map<string, Entity>, pe: Pending, ncbi: map<string, Hit>): (r: Result<map<string, Entity>>)
    requires pe.entry.key in index
    ensures r.Ok? ==> r.value.Keys == index.Keys
  {
    var e := WriteBack(index[pe.entry.key], pe.entry.taxonName, pe.provider, HitFor(ncbi, pe.entry.providerId));
    if e.Err? then Err(e.reason) else Ok(index[pe.entry.key := e.value])
  }

  /** The pending lookups written back in order; a KeyError stops the run. */
  function WrittenBack(index: map<string, Entity>, pending: seq<Pending>, ncbi: map<string, Hit>): (r: Result<map<string, Entity>>)
    requires forall i :: 0 <= i < |pending| ==> pending[i].entry.key in index
    ensures r.Ok? ==> r.value.Keys == index.Keys
    decreases |pending|
  {
    if pending == [] then Ok(index)
    else
      var prev := WrittenBack(index, pending[..|pending| - 1], ncbi);
      if prev.Err? then prev else WriteBackAt(prev.value, pending[|pending| - 1], ncbi)
  }

  /** Once a write-back fails, the rest of the queue does not run: the error is the
      run's error. */
  lemma {:induction false} WrittenBackErrPrefix(index: map<string, Entity>, pending: seq<Pending>, ncbi: map<string, Hit>, n: nat)
    requires n <= |pending| && forall i :: 0 <= i < |pending| ==> pending[i].entry.key in index
    requires WrittenBack(index, pending[..n], ncbi).Err?
    ensures WrittenBack(index, pending, ncbi) == WrittenBack(index, pending[..n], ncbi)
    decreases |pending| - n
  {
    if n < |pending| {
      assert pending[..n + 1][..n] == pending[..n];
      WrittenBackErrPrefix(index, pending, ncbi, n + 1);
    } else {
      assert pending[..n] == pending;
    }
  }

  ghost predicate AllOrdered(index: map<string, Entity>) {
    forall k :: k in index ==> IsAOrdered(index[k])
  }

  lemma AllOrderedUpdate(index: map<string, Entity>, key: string, e: Entity)
    requires AllOrdered(index) && IsAOrdered(e)
    ensures AllOrdered(index[key := e])
  {
  }

  /** The taxon entry a lookup was queued for holds an NCBITaxon record. */
  ghost predicate HasNcbi(index: map<string, Entity>, q: Queued) {
    q.key in index && q.taxonName in index[q.key].taxon && "NCBITaxon" in index[q.key].taxon[q.taxonName]
  }

  lemma HasNcbiEvolved(index0: map<string, Entity>, index: map<string, Entity>, q: Queued)
    requires HasNcbi(index0, q) && Evolved(index0, index)
    ensures HasNcbi(index, q)
  {
    assert Evolves(index0[q.key], index[q.key]);
  }

  /** Every lookup of `pending` is answered in `index`. */
  ghost predicate AllAnswered(index: map<string, Entity>, pending: seq<Pending>) {
    forall i :: 0 <= i < |pending| ==> HasNcbi(index, pending[i].entry)
  }

  /** One write-back of a valid queued lookup fails only on a rank mismatch. */
  lemma WriteBackFailsOnMismatch(index: map<string, Entity>, pe: Pending, ncbi: map<string, Hit>)
    requires QueuedValid(index, pe.provider, pe.entry)
    ensures WriteBackAt(index, pe, ncbi).Err? ==> Mismatch(pe, ncbi)
  {
  }

  /** One successful write-back of a valid queued lookup: the entity evolves and the
      lookup is answered. */
  lemma WriteBackStep(index: map<string, Entity>, pe: Pending, ncbi: map<string, Hit>)
    requires QueuedValid(index, pe.provider, pe.entry) && AllOrdered(index)
    requires WriteBackAt(index, pe, ncbi).Ok?
    ensures var r := WriteBackAt(index, pe, ncbi).value;
            Evolved(index, r) && AllOrdered(r) && HasNcbi(r, pe.entry)
  {
    var q := pe.entry;
    var hit := HitFor(ncbi, q.providerId);
    var e := WriteBack(index[q.key], q.taxonName, pe.provider, hit).value;
    WriteBackEvolves(index[q.key], q.taxonName, pe.provider, hit);
    EvolvedUpdate(index, q.key, e);
    assert IsAOrdered(e) by {
      assert e.isAOrder == index[q.key].isAOrder && e.isA == index[q.key].isA;
    }
    AllOrderedUpdate(index, q.key, e);
  }

  /** Answered lookups stay answered while the index evolves. */
  lemma AllAnsweredEvolved(index0: map<string, Entity>, index: map<string, Entity>, pending: seq<Pending>)
    requires AllAnswered(index0, pending) && Evolved(index0, index)
    ensures AllAnswered(index, pending)
  {
    forall i | 0 <= i < |pending| ensures HasNcbi(index, pending[i].entry) {
      HasNcbiEvolved(index0, index, pending[i].entry);
    }
  }

  lemma AllAnsweredSnoc(index: map<string, Entity>, pending: seq<Pending>)
    requires pending != [] && AllAnswered(index, pending[..|pending| - 1]) && HasNcbi(index, pending[|pending| - 1].entry)
    ensures AllAnswered(index, pending)
  {
    var front := pending[..|pending| - 1];
    forall i | 0 <= i < |pending| ensures HasNcbi(index, pending[i].entry) {
      if i < |front| {
        assert pending[i] == front[i];
      }
    }
  }

  /** One more write-back after a sound prefix keeps the prefix's guarantees. */
  lemma WrittenBackExtend(index: map<string, Entity>, index1: map<string, Entity>, pending: seq<Pending>,
                          ncbi: map<string, Hit>)
    requires pending != []
    requires Evolved(index, index1) && AllOrdered(index1) && AllAnswered(index1, pending[..|pending| - 1])
    requires QueuedValid(index1, pending[|pending| - 1].provider, pending[|pending| - 1].entry)
    ensures var r := WriteBackAt(index1, pending[|pending| - 1], ncbi);
            (r.Ok? ==> Evolved(index, r.value) && AllOrdered(r.value) && AllAnswered(r.value, pending))
            && (r.Err? ==> Mismatch(pending[|pending| - 1], ncbi))
  {
    var n := |pending| - 1;
    var front := pending[..n];
    WriteBackFailsOnMismatch(index1, pending[n], ncbi);
    var r := WriteBackAt(index1, pending[n], ncbi);
    if r.Ok? {
      WriteBackStep(index1, pending[n], ncbi);
      EvolvedTrans(index, index1, r.value);
      AllAnsweredEvolved(index1, r.value, front);
      AllAnsweredSnoc(r.value, pending);
    }
  }

  /** The write-back of valid queued lookups keeps the differential guarantees and
      answers every lookup; it can only fail on a rank mismatch (the NCBITaxon record
      it then suppresses does not exist). */
  lemma {:induction false} WrittenBackSound(index: map<string, Entity>, pending: seq<Pending>, ncbi: map<string, Hit>)
    requires forall i :: 0 <= i < |pending| ==> pending[i].entry.key in index
    requires forall i :: 0 <= i < |pending| ==> QueuedValid(index, pending[i].provider, pending[i].entry)
    requires AllOrdered(index)
    ensures var r := WrittenBack(index, pending, ncbi);
            (r.Ok? ==> Evolved(index, r.value) && AllOrdered(r.value) && AllAnswered(r.value, pending))
            && (r.Err? ==> exists i :: 0 <= i < |pending| && Mismatch(pending[i], ncbi))
  {
    if pending == [] {
      EvolvedRefl(index);
    } else {
      var n := |pending| - 1;
      var front := pending[..n];
      var pe := pending[n];
      assert forall i :: 0 <= i < |front| ==> front[i] == pending[i];
      WrittenBackSound(index, front, ncbi);
      var prev := WrittenBack(index, front, ncbi);
      if prev.Ok? {
        QueuedValidEvolved(index, prev.value, pe.provider, pe.entry);
        WrittenBackExtend(index, prev.value, pending, ncbi);
      } else {
        var i :| 0 <= i < |front| && Mismatch(front[i], ncbi);
        assert Mismatch(pending[i], ncbi);
      }
    }
  }

  // ---------------------------------------------------------------------
  // The importer

  /** The override changes nothing but ontology ids. */
  ghost predicate SameButIds(index0: map<string, Entity>, index: map<string, Entity>) {
    index.Keys == index0.Keys && forall k :: k in index ==> index[k] == index0[k].(ontologyId := index[k].ontologyId)
  }

  lemma SameButIdsValid(index0: map<string, Entity>, index: map<string, Entity>, order: seq<string>, queue: map<string, seq<Queued>>)
    requires SameButIds(index0, index)
    requires IndexOrdered(index0, order) && (forall k :: k in index0 ==> IsAOrdered(index0[k])) && QueueValid(index0, queue)
    ensures IndexOrdered(index, order) && (forall k :: k in index ==> IsAOrdered(index[k])) && QueueValid(index, queue)
  {
    forall p, q | p in queue && q in queue[p] ensures QueuedValid(index, p, q) {
      assert QueuedValid(index0, p, q);
    }
  }

  /** The index after the override has visited `keys` in order. */
  function RetargetedKeys(index0: map<string, Entity>, keys: seq<string>, lookup: map<string, string>): map<string, Entity>
    requires forall i :: 0 <= i < |keys| ==> keys[i] in index0
  {
    if keys == [] then index0
    else
      var k := keys[|keys| - 1];
      RetargetedKeys(index0, keys[..|keys| - 1], lookup)[k := Retarget(index0[k], lookup)]
  }

  lemma RetargetedKeysStep(index0: map<string, Entity>, keys: seq<string>, n: nat, lookup: map<string, string>)
    requires n < |keys| && forall i :: 0 <= i < |keys| ==> keys[i] in index0
    ensures RetargetedKeys(index0, keys[..n + 1], lookup)
              == RetargetedKeys(index0, keys[..n], lookup)[keys[n] := Retarget(index0[keys[n]], lookup)]
  {
    assert keys[..n + 1][..n] == keys[..n];
  }

  lemma {:induction false} RetargetedKeysAt(index0: map<string, Entity>, keys: seq<string>, lookup: map<string, string>)
    requires forall i :: 0 <= i < |keys| ==> keys[i] in index0
    ensures RetargetedKeys(index0, keys, lookup).Keys == index0.Keys
    ensures forall k :: k in index0 ==> RetargetedKeys(index0, keys, lookup)[k] == if k in keys then Retarget(index0[k], lookup) else index0[k]
  {
    if keys != [] {
      var front := keys[..|keys| - 1];
      RetargetedKeysAt(index0, front, lookup);
      assert forall k :: k in keys <==> k in front || k == keys[|keys| - 1];
    }
  }

  /** Visiting every key of the index retargets the whole index, and changes
      nothing but ontology ids. */
  lemma RetargetedKeysAll(index0: map<string, Entity>, order: seq<string>, lookup: map<string, string>)
    requires IndexOrdered(index0, order)
    ensures RetargetedKeys(index0, order, lookup) == Retargeted(index0, lookup)
    ensures SameButIds(index0, RetargetedKeys(index0, order, lookup))
  {
    RetargetedKeysAt(index0, order, lookup);
  }

  /** The override loop of `updateDatabaseOntologyIds`, visiting `keys` in order:
      every entity whose database id is in the lookup table takes the table's
      ontology id, and the ontology index moves with it; an entity without an
      ontology id raises KeyError. */
  method OverrideIds(index0: map<string, Entity>, keys: seq<string>, oi0: map<string, string>, lookup: map<string, string>)
    returns (index: map<string, Entity>, oi: map<string, string>, ok: bool)
    requires forall j :: 0 <= j < |keys| ==> keys[j] in index0
    ensures ok <==> forall j :: 0 <= j < |keys| && index0[keys[j]].databaseId in lookup ==> index0[keys[j]].ontologyId.Some?
    ensures ok ==> index == RetargetedKeys(index0, keys, lookup) && oi == OverriddenIndex(oi0, index0, keys, lookup)
  {
    index, oi := index0, oi0;
    var i := 0;
    while i < |keys|
      invariant 0 <= i <= |keys|
      invariant index == RetargetedKeys(index0, keys[..i], lookup)
      invariant oi == OverriddenIndex(oi0, index0, keys[..i], lookup)
      invariant forall j :: 0 <= j < i && index0[keys[j]].databaseId in lookup ==> index0[keys[j]].ontologyId.Some?
    {
      RetargetedKeysStep(index0, keys, i, lookup);
      OverriddenIndexStep(oi0, index0, keys, i, lookup);
      var key := keys[i];
      var e := index0[key];
      if e.databaseId in lookup {
        var newId := lookup[e.databaseId];
        oi := oi[newId := e.databaseId];
        if e.ontologyId.None? {
          ok := false;
          return;
        }
        var oldId := e.ontologyId.value;
        index := index[key := e.(ontologyId := Some(newId))];
        oi := oi - {oldId};
      } else {
        index := index[key := e];
      }
      i := i + 1;
    }
    assert keys[..i] == keys;
    ok := true;
  }
}
