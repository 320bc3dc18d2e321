// The reconciliation loop of the LanguaL importer (src/ontology/imports/langual/langual.py,
// `__main__`): each `<DESCRIPTOR>` is merged into the term database, specified by
// `Processed` on the database as a value and carried out in place by the class
// `Importer`.
module LangualRun {
  import opened Wrappers
  import opened PyStr
  import opened AttributeStore
  import opened Store
  import opened OntologyIds
  import opened TaxonLookup
  import opened Reconcile
  import opened LangualImporter

  /** The importer's state: the index and its key order, `ontology_index` and the
      queue of NCBITaxon lookups. */
  datatype Db = Db(index: map<string, Entity>, order: seq<string>, ontologyIndex: map<string, string>,
                   queue: map<string, seq<Queued>>)

  ghost predicate DbValid(db: Db) {
    IndexOrdered(db.index, db.order) && AllOrdered(db.index)
    && db.queue.Keys == LookupProviders && QueueValid(db.index, db.queue)
  }

  /** The code seen for the first time is stored as a skeleton at the end of the index. */
  function Admit(db: Db, key: string, active: Option<string>): Db {
    if key in db.index then db
    else db.(index := db.index[key := NewEntity(key, XmlValue(active))], order := db.order + [key])
  }

  function WithEntity(db: Db, key: string, e: Entity): Db {
    db.(index := db.index[key := e])
  }

  /** `load_facet_details` runs `getFoodSource` for facet B, which reads AI only when
      it has text. */
  predicate RunsFoodSource(e: Entity, d: Descriptor) {
    e.databaseId != "" && e.databaseId[0] == 'B' && d.ai.Some? && d.ai.value != ""
  }

  /** The term after `getFoodSource` merged the taxon records of its AI lines. */
  function FoodSourced(e: Entity, d: Descriptor): Entity {
    if RunsFoodSource(e, d) then TaxaOf(e, d.taxonomy) else e
  }

  /** The queue after `getFoodSource` appended the lookups of the entity's lines. */
  function FoodQueue(queue: map<string, seq<Queued>>, e: Entity, lines: seq<Option<TaxonMatch>>, key: string): map<string, seq<Queued>> {
    map p | p in queue :: queue[p] + QueuedOf(e, lines, key, p)
  }

  /** The English label from TERM, and the comment from SN when SN has text. */
  function Labelled(e: Entity, d: Descriptor): (r: Entity)
    ensures r == e.(attrs := r.attrs)
  {
    var e1 := e.(attrs := SetAttributeDiff(e.attrs, "label", XmlValue(d.term), Some("en")));
    if d.sn.Some? && d.sn.value != "" then e1.(attrs := SetAttributeDiff(e1.attrs, "comment", XmlValue(d.sn), Some("en")))
    else e1
  }

  /** The term after its facet details and its synonyms: `getFoodSource`, then
      `load_synonyms`, which stops on a SYNONYM element without text. */
  function FinishedTerm(e: Entity, d: Descriptor): Entity {
    var e1 := FoodSourced(e, d);
    match LoadedSynonyms(e1.xrefs, e1.synonyms, d.synonyms)
    case None => e1
    case Some(loaded) => e1.(xrefs := loaded.0, synonyms := loaded.1)
  }

  /** The facet details and the synonyms of a term that is neither ignored nor
      deprecated. */
  function Finished(db: Db, key: string, e: Entity, d: Descriptor): (Db, Outcome) {
    var e1 := FoodSourced(e, d);
    var queue := if RunsFoodSource(e, d) then FoodQueue(db.queue, e, d.taxonomy, key) else db.queue;
    (db.(index := db.index[key := FinishedTerm(e, d)], queue := queue),
     if LoadedSynonyms(e1.xrefs, e1.synonyms, d.synonyms).Some? then Completed
     else Failed("TypeError: SYNONYM without text"))
  }

  /** `getFoodSource` over the AI lines one at a time: one more line merges its
      taxon record and, for a lookup provider with no NCBITaxon record yet, queues
      one lookup for that provider. */
  lemma TaxaOfStep(e0: Entity, lines: seq<Option<TaxonMatch>>, n: nat)
    requires n < |lines|
    ensures var line := lines[n];
            TaxaOf(e0, lines[..n + 1])
              == if line.Some? && KeyTaxon(line.value).Some? then AddTaxon(TaxaOf(e0, lines[..n]), KeyTaxon(line.value).value)
                 else TaxaOf(e0, lines[..n])
  {
    assert lines[..n + 1][..n] == lines[..n];
  }

  /** The lookup one AI line queues for provider `p`, `e` being the entity before that line. */
  function LineQueued(e: Entity, line: Option<TaxonMatch>, key: string, p: string): seq<Queued> {
    if line.Some? && KeyTaxon(line.value).Some? && KeyTaxon(line.value).value.db == p
       && QueuesLookup(e, KeyTaxon(line.value).value)
    then [Queued(key, KeyTaxon(line.value).value.name, KeyTaxon(line.value).value.id)] else []
  }

  lemma QueuedOfStep(e0: Entity, lines: seq<Option<TaxonMatch>>, key: string, p: string, n: nat)
    requires n < |lines|
    ensures QueuedOf(e0, lines[..n + 1], key, p)
              == QueuedOf(e0, lines[..n], key, p) + LineQueued(TaxaOf(e0, lines[..n]), lines[n], key, p)
  {
    assert lines[..n + 1][..n] == lines[..n];
  }

  /** The queue after one more AI line, `e` being the entity before that line. */
  function QueueLine(q: map<string, seq<Queued>>, e: Entity, line: Option<TaxonMatch>, key: string): map<string, seq<Queued>> {
    if line.Some? && KeyTaxon(line.value).Some? && KeyTaxon(line.value).value.db in q
       && QueuesLookup(e, KeyTaxon(line.value).value)
    then
      var k := KeyTaxon(line.value).value;
      q[k.db := q[k.db] + [Queued(key, k.name, k.id)]]
    else q
  }

  lemma QueueLineAt(q: map<string, seq<Queued>>, e: Entity, line: Option<TaxonMatch>, key: string, p: string)
    requires p in q
    ensures var r := QueueLine(q, e, line, key);
            r.Keys == q.Keys && r[p] == q[p] + LineQueued(e, line, key, p)
  {
  }

  lemma FoodQueueNext(queue0: map<string, seq<Queued>>, e0: Entity, lines: seq<Option<TaxonMatch>>, key: string, n: nat)
    requires n < |lines|
    ensures FoodQueue(queue0, e0, lines[..n + 1], key)
              == QueueLine(FoodQueue(queue0, e0, lines[..n], key), TaxaOf(e0, lines[..n]), lines[n], key)
  {
    var q := FoodQueue(queue0, e0, lines[..n], key);
    var q' := FoodQueue(queue0, e0, lines[..n + 1], key);
    var r := QueueLine(q, TaxaOf(e0, lines[..n]), lines[n], key);
    forall p | p in q' ensures p in r && q'[p] == r[p] {
      QueuedOfStep(e0, lines, key, p, n);
      QueueLineAt(q, TaxaOf(e0, lines[..n]), lines[n], key, p);
    }
    assert q'.Keys == r.Keys;
  }

  lemma FoodQueueNone(queue0: map<string, seq<Queued>>, e0: Entity, key: string)
    ensures FoodQueue(queue0, e0, [], key) == queue0
  {
    forall p | p in queue0 ensures FoodQueue(queue0, e0, [], key)[p] == queue0[p] {
      assert QueuedOf(e0, [], key, p) == [];
    }
    assert FoodQueue(queue0, e0, [], key).Keys == queue0.Keys;
  }

  /** The AI loop of `getFoodSource`, given the taxonomy pattern's match on each
      line: the entity gets the taxon records of the keyed lines, and the lookup
      queue gets their pending NCBITaxon lookups, in line order. */
  method GetFoodSource(e0: Entity, lines: seq<Option<TaxonMatch>>, key: string, queue0: map<string, seq<Queued>>)
    returns (e: Entity, queue: map<string, seq<Queued>>)
    ensures e == TaxaOf(e0, lines)
    ensures queue == FoodQueue(queue0, e0, lines, key)
  {
    e, queue := e0, queue0;
    FoodQueueNone(queue0, e0, key);
    var i := 0;
    assert lines[..0] == [];
    while i < |lines|
      invariant 0 <= i <= |lines|
      invariant e == TaxaOf(e0, lines[..i])
      invariant queue == FoodQueue(queue0, e0, lines[..i], key)
    {
      var line := lines[i];
      TaxaOfStep(e0, lines, i);
      FoodQueueNext(queue0, e0, lines, key, i);
      if line.Some? && KeyTaxon(line.value).Some? {
        var k := KeyTaxon(line.value).value;
        ghost var before := e;
        e := AddTaxon(e, k);
        if !BeyondTestCutoff(e.databaseId) && IsLookupProvider(k.db) && "NCBITaxon" !in e.taxon[k.name] && k.db in queue {
          assert QueuesLookup(before, k);
          queue := queue[k.db := queue[k.db] + [Queued(key, k.name, k.id)]];
        } else {
          assert k.db in queue ==> !QueuesLookup(before, k);
        }
      }
      i := i + 1;
    }
    assert lines[..i] == lines;
  }

  /** The ontology id a term keeps, or the one `get_ontology_id` gives it. */
  function OntologyIdFor(e: Entity, key: string): Result<string> {
    if e.ontologyId.Some? then Ok(e.ontologyId.value) else GetOntologyId(key)
  }

  /** The rest of the loop body once the record is the one that brings the first
      parent (or has none): the LANGUAL self-reference, the status review, and for a
      term that is not ignored its ontology id, label and comment; a deprecated term
      stops there. */
  function Reconciled(db: Db, key: string, e: Entity, d: Descriptor): (Db, Outcome) {
    var reviewed := e.status != Ignore && e.status != Deprecated;
    var e2 := Reviewed(e, key, d);
    if reviewed && key == "" then (WithEntity(db, key, e2), Failed("IndexError: database_id[0]"))
    else if e2.status == Ignore then (WithEntity(db, key, e2), Ignored)
    else
      match OntologyIdFor(e2, key)
      case Err(reason) => (WithEntity(db, key, e2), Failed(reason))
      case Ok(oid) => Identified(db, key, e2, oid, d)
  }

  /** The rest of the loop body once the term has its ontology id `oid`. */
  function Identified(db: Db, key: string, e: Entity, oid: string, d: Descriptor): (Db, Outcome) {
    var e3 := Labelled(e.(ontologyId := Some(oid)), d);
    var db3 := db.(index := db.index[key := e3], ontologyIndex := db.ontologyIndex[oid := e3.databaseId]);
    if e3.status == Deprecated then (db3, Retired)
    else if e3.databaseId == "" then (db3, Failed("IndexError: database_id[0]"))
    else Finished(db3, key, e3, d)
  }

  /** The stored term with the `is_a` entry of the record's BT added: keyed by the
      parent's ontology id, with the parent's code as value. */
  function Parented(index: map<string, Entity>, key: string, d: Descriptor): (r: Result<Entity>)
    requires key in index && IsAOrdered(index[key])
    ensures r.Ok? ==> IsAOrdered(r.value)
    ensures r.Ok? && d.bt.Some? ==> r.value.isAOrder != []
  {
    if d.bt.None? then Ok(index[key])
    else
      match ParentOntologyId(index, d.bt.value)
      case Err(reason) => Err(reason)
      case Ok(pid) =>
        FirstParentSentinel(index[key], pid, d.bt.value);
        Ok(AddParent(index[key], pid, d.bt.value))
  }

  /** The loop body once the record's term is in the index: the BT's parent entry,
      the sentinel that keeps only the first parent's record going, then the rest. */
  function Placed(db: Db, key: string, d: Descriptor): (Db, Outcome)
    requires key in db.index && IsAOrdered(db.index[key])
  {
    match Parented(db.index, key, d)
    case Err(reason) => (db, Failed(reason))
    case Ok(e) =>
      if d.bt.Some? && FirstParentValue(e) != Some(d.bt.value) then (WithEntity(db, key, e), LaterParent)
      else Reconciled(db, key, e, d)
  }

  /** One pass of the loop body over a descriptor. */
  function Processed(db: Db, d: Descriptor, langualImport: bool): (Db, Outcome)
    requires AllOrdered(db.index)
  {
    if d.ftc.None? || d.ftc.value == "" then (db, Failed("TypeError: FTC has no text"))
    else if SkipsCategory(langualImport, d.ftc.value[0]) then (db, Skipped)
    else
      var key := DescriptorKey(d);
      var db1 := Admit(db, key, d.active);
      Placed(db1, key, d)
  }

  // ---------------------------------------------------------------------
  // The loop body keeps the database valid and only evolves stored terms

  lemma IndexOrderedAppend(index: map<string, Entity>, order: seq<string>, key: string, e: Entity)
    requires IndexOrdered(index, order) && key !in index
    ensures IndexOrdered(index[key := e], order + [key])
  {
    assert forall i :: 0 <= i < |order| ==> order[i] in index;
  }

  /** Storing a new term at the end of the index keeps the database valid. */
  lemma InsertSound(db: Db, key: string, e: Entity)
    requires DbValid(db) && key !in db.index && IsAOrdered(e)
    ensures var r := db.(index := db.index[key := e], order := db.order + [key]);
            DbValid(r) && Evolved(db.index, r.index)
  {
    EvolvedUpdate(db.index, key, e);
    AllOrderedUpdate(db.index, key, e);
    QueueValidEvolved(db.index, db.index[key := e], db.queue);
    IndexOrderedAppend(db.index, db.order, key, e);
  }

  lemma AdmitSound(db: Db, key: string, active: Option<string>)
    requires DbValid(db)
    ensures var r := Admit(db, key, active);
            DbValid(r) && Evolved(db.index, r.index) && key in r.index
  {
    if key !in db.index {
      InsertSound(db, key, NewEntity(key, XmlValue(active)));
    } else {
      EvolvedRefl(db.index);
    }
  }

  /** Replacing a stored term by an evolution of it keeps the database valid. */
  lemma WithEvolved(db: Db, key: string, e: Entity)
    requires DbValid(db) && key in db.index && IsAOrdered(e) && Evolves(db.index[key], e)
    ensures DbValid(WithEntity(db, key, e)) && Evolved(db.index, WithEntity(db, key, e).index)
  {
    var r := WithEntity(db, key, e);
    EvolvedUpdate(db.index, key, e);
    AllOrderedUpdate(db.index, key, e);
    QueueValidEvolved(db.index, r.index, db.queue);
  }

  lemma LabelledEvolves(e: Entity, d: Descriptor)
    ensures Evolves(e, Labelled(e, d)) && Labelled(e, d).isA == e.isA && Labelled(e, d).isAOrder == e.isAOrder
  {
    var e1 := e.(attrs := SetAttributeDiff(e.attrs, "label", XmlValue(d.term), Some("en")));
    AttrMergeEvolves(e, "label", XmlValue(d.term), Some("en"));
    if d.sn.Some? && d.sn.value != "" {
      AttrMergeEvolves(e1, "comment", XmlValue(d.sn), Some("en"));
      EvolvesTrans(e, e1, Labelled(e, d));
    }
  }

  lemma FoodSourcedEvolves(e: Entity, d: Descriptor)
    ensures var r := FoodSourced(e, d);
            Evolves(e, r) && r.isA == e.isA && r.isAOrder == e.isAOrder
  {
    if RunsFoodSource(e, d) {
      TaxaOfEvolves(e, d.taxonomy);
      TaxaOfKeepsLocks(e, d.taxonomy);
    } else {
      EvolvesRefl(e);
    }
  }

  lemma SynonymsLoadedEvolve(e: Entity, d: Descriptor)
    requires LoadedSynonyms(e.xrefs, e.synonyms, d.synonyms).Some?
    ensures var loaded := LoadedSynonyms(e.xrefs, e.synonyms, d.synonyms).value;
            Evolves(e, e.(xrefs := loaded.0, synonyms := loaded.1))
  {
    LoadedSynonymsKept(e.xrefs, e.synonyms, d.synonyms);
    var loaded := LoadedSynonyms(e.xrefs, e.synonyms, d.synonyms).value;
    SynonymsEvolve(e, d.synonyms, loaded.0, loaded.1);
  }

  /** The term `Finished` stores. */
  lemma FinishedTermEvolves(e: Entity, d: Descriptor)
    requires IsAOrdered(e)
    ensures var r := FinishedTerm(e, d);
            Evolves(e, r) && IsAOrdered(r) && r.taxon == FoodSourced(e, d).taxon
  {
    var e1 := FoodSourced(e, d);
    FoodSourcedEvolves(e, d);
    if LoadedSynonyms(e1.xrefs, e1.synonyms, d.synonyms).Some? {
      SynonymsLoadedEvolve(e1, d);
      var loaded := LoadedSynonyms(e1.xrefs, e1.synonyms, d.synonyms).value;
      EvolvesTrans(e, e1, e1.(xrefs := loaded.0, synonyms := loaded.1));
    }
  }

  /** The lookups `getFoodSource` queues keep the queue valid. */
  lemma FoodQueueSound(db: Db, key: string, e: Entity, lines: seq<Option<TaxonMatch>>)
    requires DbValid(db) && key in db.index && db.index[key].taxon == TaxaOf(e, lines).taxon
    ensures DbValid(db.(queue := FoodQueue(db.queue, e, lines, key)))
  {
    QueueExtended(db.index, db.queue, FoodQueue(db.queue, e, lines, key), key, e, lines);
  }

  lemma FinishedSound(db: Db, key: string, e: Entity, d: Descriptor)
    requires DbValid(db) && key in db.index && IsAOrdered(e) && Evolves(db.index[key], e)
    ensures var r := Finished(db, key, e, d);
            DbValid(r.0) && Evolved(db.index, r.0.index)
  {
    var r := Finished(db, key, e, d);
    FinishedTermEvolves(e, d);
    var e' := FinishedTerm(e, d);
    EvolvesTrans(db.index[key], e, e');
    WithEvolved(db, key, e');
    var db' := WithEntity(db, key, e');
    if RunsFoodSource(e, d) {
      FoodQueueSound(db', key, e, d.taxonomy);
      assert r.0 == db'.(queue := FoodQueue(db.queue, e, d.taxonomy, key));
    } else {
      assert r.0 == db';
    }
  }

  /** The entity after the LANGUAL self-reference and the status review. */
  function Reviewed(e: Entity, key: string, d: Descriptor): Entity {
    Review(e.(xrefs := SetAttributeDiff(e.xrefs, "LANGUAL", Some(key), None)), d.active, d.sn)
  }

  lemma ReviewedEvolves(e: Entity, key: string, d: Descriptor)
    ensures var r := Reviewed(e, key, d);
            Evolves(e, r) && r.isA == e.isA && r.isAOrder == e.isAOrder
  {
    var e1 := e.(xrefs := SetAttributeDiff(e.xrefs, "LANGUAL", Some(key), None));
    XrefMergeEvolves(e, "LANGUAL", Some(key), None);
    ReviewEvolves(e1, d.active, d.sn);
    EvolvesTrans(e, e1, Reviewed(e, key, d));
  }

  lemma IdentifiedEvolves(e: Entity, oid: string, d: Descriptor)
    requires e.ontologyId.Some? ==> e.ontologyId.value == oid
    ensures var r := Labelled(e.(ontologyId := Some(oid)), d);
            Evolves(e, r) && r.isA == e.isA && r.isAOrder == e.isAOrder
  {
    var e1 := e.(ontologyId := Some(oid));
    if e.ontologyId.None? {
      OntologyIdEvolves(e, oid);
    } else {
      assert e1 == e;
      EvolvesRefl(e);
    }
    LabelledEvolves(e1, d);
    EvolvesTrans(e, e1, Labelled(e1, d));
  }

  lemma IdentifiedSound(db: Db, key: string, e: Entity, oid: string, d: Descriptor)
    requires DbValid(db) && key in db.index && IsAOrdered(e) && Evolves(db.index[key], e)
    requires e.ontologyId.Some? ==> e.ontologyId.value == oid
    ensures var r := Identified(db, key, e, oid, d);
            DbValid(r.0) && Evolved(db.index, r.0.index)
  {
    var e3 := Labelled(e.(ontologyId := Some(oid)), d);
    IdentifiedEvolves(e, oid, d);
    EvolvesTrans(db.index[key], e, e3);
    WithEvolved(db, key, e3);
    var db3 := db.(index := db.index[key := e3], ontologyIndex := db.ontologyIndex[oid := e3.databaseId]);
    if e3.status != Deprecated && e3.databaseId != "" {
      EvolvesRefl(e3);
      FinishedSound(db3, key, e3, d);
      EvolvedTrans(db.index, db3.index, Finished(db3, key, e3, d).0.index);
    }
  }

  lemma ReconciledSound(db: Db, key: string, e: Entity, d: Descriptor)
    requires DbValid(db) && key in db.index && IsAOrdered(e) && Evolves(db.index[key], e)
    ensures var r := Reconciled(db, key, e, d);
            DbValid(r.0) && Evolved(db.index, r.0.index)
  {
    var e2 := Reviewed(e, key, d);
    ReviewedEvolves(e, key, d);
    EvolvesTrans(db.index[key], e, e2);
    WithEvolved(db, key, e2);
    var reviewed := e.status != Ignore && e.status != Deprecated;
    if !(reviewed && key == "") && e2.status != Ignore && OntologyIdFor(e2, key).Ok? {
      IdentifiedSound(db, key, e2, OntologyIdFor(e2, key).value, d);
    }
  }

  /** The loop body keeps the database valid, and every stored term only evolves. */
  lemma ParentedEvolves(index: map<string, Entity>, key: string, d: Descriptor)
    requires key in index && IsAOrdered(index[key])
    ensures Parented(index, key, d).Ok? ==> Evolves(index[key], Parented(index, key, d).value)
  {
    if d.bt.None? {
      EvolvesRefl(index[key]);
    } else if ParentOntologyId(index, d.bt.value).Ok? {
      ParentEvolves(index[key], ParentOntologyId(index, d.bt.value).value, d.bt.value);
    }
  }

  /** The loop body keeps the database valid, and every stored term only evolves. */
  lemma ProcessedSound(db: Db, d: Descriptor, langualImport: bool)
    requires DbValid(db)
    ensures var r := Processed(db, d, langualImport);
            DbValid(r.0) && Evolved(db.index, r.0.index)
  {
    if d.ftc.None? || d.ftc.value == "" || SkipsCategory(langualImport, d.ftc.value[0]) {
      EvolvedRefl(db.index);
    } else {
      var key := DescriptorKey(d);
      var db1 := Admit(db, key, d.active);
      AdmitSound(db, key, d.active);
      var p := Parented(db1.index, key, d);
      ParentedEvolves(db1.index, key, d);
      if p.Ok? {
        var r := Processed(db, d, langualImport);
        if d.bt.Some? && FirstParentValue(p.value) != Some(d.bt.value) {
          WithEvolved(db1, key, p.value);
          assert r.0 == WithEntity(db1, key, p.value);
        } else {
          ReconciledSound(db1, key, p.value, d);
          assert r == Reconciled(db1, key, p.value, d);
        }
        EvolvedTrans(db.index, db1.index, r.0.index);
      }
    }
  }

  // ---------------------------------------------------------------------
  // What each outcome of the loop body means

  /** Only the term under `key` is touched: it is stored, every other term is as it
      was, and a new key goes to the end of the order. */
  ghost predicate Touched(db: Db, db': Db, key: string) {
    key in db'.index && db'.index == db.index[key := db'.index[key]]
    && db'.order == (if key in db.index then db.order else db.order + [key])
  }

  /** The facet details and synonyms leave the term's id, status, ontology id and
      parents alone. */
  lemma FinishedTermKeeps(e: Entity, d: Descriptor)
    ensures var r := FinishedTerm(e, d);
            r.databaseId == e.databaseId && r.status == e.status && r.ontologyId == e.ontologyId
            && r.isA == e.isA && r.isAOrder == e.isAOrder
  {
    TaxaOfKeepsLocks(e, d.taxonomy);
  }

  /** ... and its LANGUAL self-reference. */
  lemma FinishedTermKeepsLangual(e: Entity, d: Descriptor)
    requires "LANGUAL" in e.xrefs
    ensures "LANGUAL" in FinishedTerm(e, d).xrefs
  {
    var e1 := FoodSourced(e, d);
    TaxaOfKeepsLocks(e, d.taxonomy);
    if LoadedSynonyms(e1.xrefs, e1.synonyms, d.synonyms).Some? {
      LoadedSynonymsKept(e1.xrefs, e1.synonyms, d.synonyms);
      PoppedKeysPoppable(d.synonyms);
      assert !Poppable("LANGUAL");
    }
  }

  /** A completed term has every ordinary SYNONYM text among its synonyms. */
  lemma FinishedSynonyms(db: Db, key: string, e: Entity, d: Descriptor)
    ensures var r := Finished(db, key, e, d);
            (r.1 == Completed || r.1 == Failed("TypeError: SYNONYM without text"))
            && (r.1 == Completed <==> AllTexts(d.synonyms))
            && (r.1 == Completed ==> PlainTexts(d.synonyms) <= FinishedTerm(e, d).synonyms.Keys)
  {
    var e1 := FoodSourced(e, d);
    LoadedSynonymsFail(e1.xrefs, e1.synonyms, d.synonyms);
    if LoadedSynonyms(e1.xrefs, e1.synonyms, d.synonyms).Some? {
      LoadedSynonymsKept(e1.xrefs, e1.synonyms, d.synonyms);
    }
  }

  /** A term with its ontology id: a deprecated one is labelled and stops there
      (`Retired`); any other one goes on to its facet details and synonyms. */
  lemma IdentifiedOutcome(db: Db, key: string, e: Entity, oid: string, d: Descriptor)
    ensures var r := Identified(db, key, e, oid, d);
            (r.1 == Retired <==> e.status == Deprecated)
            && (r.1 == Retired || r.1 == Completed || r.1.Failed?)
  {
    var e3 := Labelled(e.(ontologyId := Some(oid)), d);
    var db3 := db.(index := db.index[key := e3], ontologyIndex := db.ontologyIndex[oid := e3.databaseId]);
    if e3.status != Deprecated && e3.databaseId != "" {
      FinishedSynonyms(db3, key, e3, d);
    }
  }

  /** Only that term and its `ontology_index` entry change. */
  lemma IdentifiedFrame(db: Db, key: string, e: Entity, oid: string, d: Descriptor)
    ensures var r := Identified(db, key, e, oid, d);
            key in r.0.index && r.0.index == db.index[key := r.0.index[key]] && r.0.order == db.order
  {
    var e3 := Labelled(e.(ontologyId := Some(oid)), d);
    var db3 := db.(index := db.index[key := e3], ontologyIndex := db.ontologyIndex[oid := e3.databaseId]);
    if e3.status != Deprecated && e3.databaseId != "" {
      FinishedFrame(db3, key, e3, d);
      UpdateTwice(db.index, key, e3, FinishedTerm(e3, d));
    }
  }

  lemma UpdateTwice(m: map<string, Entity>, key: string, a: Entity, b: Entity)
    ensures m[key := a][key := b] == m[key := b]
  {
  }

  lemma FinishedFrame(db: Db, key: string, e: Entity, d: Descriptor)
    ensures var r := Finished(db, key, e, d);
            r.0.index == db.index[key := FinishedTerm(e, d)] && r.0.order == db.order
            && r.0.ontologyIndex == db.ontologyIndex
  {
  }

  lemma IdentifiedOntologyIndex(db: Db, key: string, e: Entity, oid: string, d: Descriptor)
    ensures Identified(db, key, e, oid, d).0.ontologyIndex == db.ontologyIndex[oid := e.databaseId]
  {
  }

  /** The term `Identified` stores keeps its id, status and parents, carries `oid`,
      and keeps its LANGUAL self-reference. */
  lemma IdentifiedTerm(db: Db, key: string, e: Entity, oid: string, d: Descriptor)
    ensures var r := Identified(db, key, e, oid, d);
            key in r.0.index
            && r.0.index[key].ontologyId == Some(oid) && r.0.index[key].databaseId == e.databaseId
            && r.0.index[key].status == e.status
            && r.0.index[key].isA == e.isA && r.0.index[key].isAOrder == e.isAOrder
            && ("LANGUAL" in e.xrefs ==> "LANGUAL" in r.0.index[key].xrefs)
  {
    var e3 := Labelled(e.(ontologyId := Some(oid)), d);
    var db3 := db.(index := db.index[key := e3], ontologyIndex := db.ontologyIndex[oid := e3.databaseId]);
    if e3.status != Deprecated && e3.databaseId != "" {
      FinishedTermKeeps(e3, d);
      if "LANGUAL" in e.xrefs {
        FinishedTermKeepsLangual(e3, d);
      }
      assert Finished(db3, key, e3, d).0.index[key] == FinishedTerm(e3, d);
    }
  }

  /** A retired term gets no facet or synonym work; a completed one has every
      ordinary SYNONYM text among its synonyms. */
  lemma IdentifiedWork(db: Db, key: string, e: Entity, oid: string, d: Descriptor)
    ensures var r := Identified(db, key, e, oid, d);
            key in r.0.index
            && (r.1 == Retired ==> r.0.index[key] == Labelled(e.(ontologyId := Some(oid)), d) && r.0.queue == db.queue)
            && (r.1 == Completed ==> AllTexts(d.synonyms) && PlainTexts(d.synonyms) <= r.0.index[key].synonyms.Keys)
  {
    var e3 := Labelled(e.(ontologyId := Some(oid)), d);
    if e3.status != Deprecated && e3.databaseId != "" {
      FinishedSynonyms(db.(index := db.index[key := e3], ontologyIndex := db.ontologyIndex[oid := e3.databaseId]), key, e3, d);
    }
  }

  /** The LANGUAL self-reference and the review touch only the status, `active` and
      `xrefs` of the term. */
  lemma ReviewedKeeps(e: Entity, key: string, d: Descriptor)
    ensures var r := Reviewed(e, key, d);
            r == e.(status := r.status, attrs := r.attrs, xrefs := SetAttributeDiff(e.xrefs, "LANGUAL", Some(key), None))
            && "LANGUAL" in r.xrefs
            && (e.status == Ignore ==> r.status == Ignore)
            && (e.status != Ignore ==> r.status != Ignore)
            && (r.status == Deprecated <==>
                  e.status == Deprecated
                  || (e.status != Ignore && (XmlValue(d.active) == Some("False") || (d.sn.Some? && Contains(d.sn.value, NoNewIndexing)))))
  {
  }

  /** Only the term under `key` changes, and it keeps its id and parents and gets its
      LANGUAL self-reference whatever the outcome. */
  lemma ReconciledFrame(db: Db, key: string, e: Entity, d: Descriptor)
    ensures var r := Reconciled(db, key, e, d);
            key in r.0.index && r.0.index == db.index[key := r.0.index[key]] && r.0.order == db.order
  {
    var e2 := Reviewed(e, key, d);
    var reviewed := e.status != Ignore && e.status != Deprecated;
    if !(reviewed && key == "") && e2.status != Ignore && OntologyIdFor(e2, key).Ok? {
      var oid := OntologyIdFor(e2, key).value;
      IdentifiedFrame(db, key, e2, oid, d);
      var r := Identified(db, key, e2, oid, d);
      UpdateTwice(db.index, key, e2, r.0.index[key]);
    }
  }

  lemma ReconciledTerm(db: Db, key: string, e: Entity, d: Descriptor)
    ensures var r := Reconciled(db, key, e, d);
            key in r.0.index && r.0.index[key].databaseId == e.databaseId
            && r.0.index[key].isA == e.isA && r.0.index[key].isAOrder == e.isAOrder
            && "LANGUAL" in r.0.index[key].xrefs
  {
    var e2 := Reviewed(e, key, d);
    ReviewedKeeps(e, key, d);
    var reviewed := e.status != Ignore && e.status != Deprecated;
    if !(reviewed && key == "") && e2.status != Ignore && OntologyIdFor(e2, key).Ok? {
      IdentifiedTerm(db, key, e2, OntologyIdFor(e2, key).value, d);
    }
  }

  /** `ignore` stops all merging after the LANGUAL self-reference: the term is
      ignored exactly when it was stored as ignored. */
  lemma ReconciledIgnored(db: Db, key: string, e: Entity, d: Descriptor)
    ensures var r := Reconciled(db, key, e, d);
            (r.1 == Ignored <==> e.status == Ignore)
            && (r.1 == Ignored ==> r.0 == WithEntity(db, key, e.(xrefs := SetAttributeDiff(e.xrefs, "LANGUAL", Some(key), None))))
            && r.1 != Skipped && r.1 != LaterParent
  {
    var e2 := Reviewed(e, key, d);
    ReviewedKeeps(e, key, d);
    var reviewed := e.status != Ignore && e.status != Deprecated;
    if !(reviewed && key == "") && e2.status != Ignore && OntologyIdFor(e2, key).Ok? {
      IdentifiedOutcome(db, key, e2, OntologyIdFor(e2, key).value, d);
    }
  }

  /** A retired or completed term has an ontology id, the one it had if it had one
      (else `get_ontology_id` of its code), and `ontology_index` maps it back. */
  lemma ReconciledIdentified(db: Db, key: string, e: Entity, d: Descriptor)
    ensures var r := Reconciled(db, key, e, d);
            r.1 == Retired || r.1 == Completed ==>
              key in r.0.index && r.0.index[key].ontologyId.Some?
              && r.0.ontologyIndex == db.ontologyIndex[r.0.index[key].ontologyId.value := e.databaseId]
              && (e.ontologyId.Some? ==> r.0.index[key].ontologyId == e.ontologyId)
              && (e.ontologyId.None? ==> GetOntologyId(key) == Ok(r.0.index[key].ontologyId.value))
  {
    var e2 := Reviewed(e, key, d);
    ReviewedKeeps(e, key, d);
    var reviewed := e.status != Ignore && e.status != Deprecated;
    if !(reviewed && key == "") && e2.status != Ignore && OntologyIdFor(e2, key).Ok? {
      var oid := OntologyIdFor(e2, key).value;
      IdentifiedTerm(db, key, e2, oid, d);
      IdentifiedOntologyIndex(db, key, e2, oid, d);
    }
  }

  /** A term is retired when it was deprecated or its record deprecates it, and
      completed only when neither holds; a completed term has all its ordinary
      synonyms. */
  lemma ReconciledRetired(db: Db, key: string, e: Entity, d: Descriptor)
    ensures var r := Reconciled(db, key, e, d);
            var retires := e.status == Deprecated || XmlValue(d.active) == Some("False")
                           || (d.sn.Some? && Contains(d.sn.value, NoNewIndexing));
            (r.1 == Retired ==> retires && key in r.0.index && r.0.index[key].status == Deprecated && r.0.queue == db.queue)
            && (r.1 == Completed ==> !retires && key in r.0.index && r.0.index[key].status == e.status
                                     && PlainTexts(d.synonyms) <= r.0.index[key].synonyms.Keys)
  {
    var e2 := Reviewed(e, key, d);
    ReviewedKeeps(e, key, d);
    var reviewed := e.status != Ignore && e.status != Deprecated;
    if !(reviewed && key == "") && e2.status != Ignore && OntologyIdFor(e2, key).Ok? {
      var oid := OntologyIdFor(e2, key).value;
      IdentifiedOutcome(db, key, e2, oid, d);
      IdentifiedTerm(db, key, e2, oid, d);
      IdentifiedWork(db, key, e2, oid, d);
    }
  }

  /** A descriptor the run handles: its FTC has text and its category is this run's. */
  predicate Handled(d: Descriptor, langualImport: bool) {
    d.ftc.Some? && d.ftc.value != "" && !SkipsCategory(langualImport, d.ftc.value[0])
  }

  /** Whether the record gets past the parent sentinel, with the term it then works on. */
  lemma ProcessedCases(db: Db, d: Descriptor, langualImport: bool)
    requires AllOrdered(db.index) && Handled(d, langualImport)
    ensures var key := DescriptorKey(d);
            var db1 := Admit(db, key, d.active);
            var r := Processed(db, d, langualImport);
            key in db1.index && IsAOrdered(db1.index[key])
            && (Parented(db1.index, key, d).Err? ==> r == (db1, Failed(Parented(db1.index, key, d).reason)))
            && (Parented(db1.index, key, d).Ok? ==>
                  var e := Parented(db1.index, key, d).value;
                  if d.bt.Some? && FirstParentValue(e) != Some(d.bt.value) then r == (WithEntity(db1, key, e), LaterParent)
                  else r == Reconciled(db1, key, e, d))
  {
    var key := DescriptorKey(d);
    var db1 := Admit(db, key, d.active);
    assert key in db1.index && IsAOrdered(db1.index[key]);
    assert Processed(db, d, langualImport) == Placed(db1, key, d);
  }

  /** A descriptor whose FTC has no text is a TypeError, one of the other run's
      category is skipped, and neither changes anything. */
  lemma ProcessedSkipped(db: Db, d: Descriptor, langualImport: bool)
    requires AllOrdered(db.index)
    ensures var r := Processed(db, d, langualImport);
            (r.1 == Skipped <==> d.ftc.Some? && d.ftc.value != "" && SkipsCategory(langualImport, d.ftc.value[0]))
            && (d.ftc.None? || d.ftc.value == "" ==> r == (db, Failed("TypeError: FTC has no text")))
            && (!Handled(d, langualImport) ==> r.0 == db)
  {
    if Handled(d, langualImport) {
      var key := DescriptorKey(d);
      var db1 := Admit(db, key, d.active);
      ProcessedCases(db, d, langualImport);
      var p := Parented(db1.index, key, d);
      if p.Ok? && !(d.bt.Some? && FirstParentValue(p.value) != Some(d.bt.value)) {
        ReconciledIgnored(db1, key, p.value, d);
      }
    }
  }

  lemma AdmitTouched(db: Db, key: string, active: Option<string>)
    ensures Touched(db, Admit(db, key, active), key)
  {
  }

  lemma TouchedAgain(db: Db, db1: Db, db2: Db, key: string)
    requires Touched(db, db1, key)
    requires key in db2.index && db2.index == db1.index[key := db2.index[key]] && db2.order == db1.order
    ensures Touched(db, db2, key)
  {
    UpdateTwice(db.index, key, db1.index[key], db2.index[key]);
  }

  /** The loop body touches only the descriptor's own term: every other term stays
      as it was, and a code seen for the first time goes to the end of the order. */
  lemma ProcessedFrame(db: Db, d: Descriptor, langualImport: bool)
    requires AllOrdered(db.index)
    ensures var r := Processed(db, d, langualImport);
            r.0 == db || (Handled(d, langualImport) && Touched(db, r.0, DescriptorKey(d)))
  {
    if Handled(d, langualImport) {
      var key := DescriptorKey(d);
      var db1 := Admit(db, key, d.active);
      AdmitTouched(db, key, d.active);
      ProcessedCases(db, d, langualImport);
      var p := Parented(db1.index, key, d);
      var r := Processed(db, d, langualImport);
      if p.Ok? {
        if !(d.bt.Some? && FirstParentValue(p.value) != Some(d.bt.value)) {
          ReconciledFrame(db1, key, p.value, d);
        }
        TouchedAgain(db, db1, r.0, key);
      }
    }
  }

  /** Every record with a BT that gets past the parent lookup adds the `is_a` entry
      keyed by the parent's ontology id, with the parent's code as value unless that
      entry is locked. */
  lemma ProcessedParent(db: Db, d: Descriptor, langualImport: bool)
    requires AllOrdered(db.index) && Handled(d, langualImport) && d.bt.Some?
    ensures var key := DescriptorKey(d);
            var e0 := Admitted(db.index, d);
            var pid := ParentOntologyId(Admit(db, key, d.active).index, d.bt.value);
            var r := Processed(db, d, langualImport);
            r.1 == LaterParent || r.1 == Ignored || r.1 == Retired || r.1 == Completed ==>
              pid.Ok? && key in r.0.index && pid.value in r.0.index[key].isA
              && e0.isAOrder <= r.0.index[key].isAOrder
              && (pid.value !in e0.isA || !e0.isA[pid.value].locked ==> r.0.index[key].isA[pid.value].value == Some(d.bt.value))
  {
    var key := DescriptorKey(d);
    var db1 := Admit(db, key, d.active);
    ProcessedCases(db, d, langualImport);
    var p := Parented(db1.index, key, d);
    if p.Ok? {
      var pid := ParentOntologyId(db1.index, d.bt.value).value;
      ParentRecorded(db1.index[key], pid, d.bt.value);
      if FirstParentValue(p.value) == Some(d.bt.value) {
        ReconciledTerm(db1, key, p.value, d);
      }
    }
  }

  lemma FirstParentSame(e: Entity, e': Entity)
    requires IsAOrdered(e) && e.isAOrder != [] && e'.isA == e.isA && e'.isAOrder == e.isAOrder
    ensures IsAOrdered(e') && FirstParentValue(e') == FirstParentValue(e)
  {
  }

  /** The parent sentinel: a record is carried on only when its BT is the value of
      the term's first `is_a` entry. */
  lemma ProcessedSentinel(db: Db, d: Descriptor, langualImport: bool)
    requires AllOrdered(db.index) && Handled(d, langualImport) && d.bt.Some?
    ensures var key := DescriptorKey(d);
            var r := Processed(db, d, langualImport);
            r.1 == Ignored || r.1 == Retired || r.1 == Completed ==>
              key in r.0.index && IsAOrdered(r.0.index[key]) && r.0.index[key].isAOrder != []
              && FirstParentValue(r.0.index[key]) == Some(d.bt.value)
  {
    var key := DescriptorKey(d);
    var db1 := Admit(db, key, d.active);
    ProcessedCases(db, d, langualImport);
    var p := Parented(db1.index, key, d);
    if p.Ok? && FirstParentValue(p.value) == Some(d.bt.value) {
      ReconciledTerm(db1, key, p.value, d);
      var r := Reconciled(db1, key, p.value, d);
      FirstParentSame(p.value, r.0.index[key]);
    } else if p.Ok? {
      assert Processed(db, d, langualImport).1 == LaterParent;
    }
  }

  /** A later record of a multi-parent term only adds its parent: the term was
      stored already, and its first `is_a` entry stays first. */
  lemma ProcessedLaterParent(db: Db, d: Descriptor, langualImport: bool)
    requires AllOrdered(db.index) && Handled(d, langualImport) && d.bt.Some?
    ensures var key := DescriptorKey(d);
            var r := Processed(db, d, langualImport);
            r.1 == LaterParent ==>
              key in db.index && db.index[key].isAOrder != [] && key in r.0.index && IsAOrdered(r.0.index[key])
              && r.0.index[key].isAOrder != [] && r.0.index[key].isAOrder[0] == db.index[key].isAOrder[0]
              && FirstParentValue(r.0.index[key]) != Some(d.bt.value)
              && r.0.index[key] == AddParent(db.index[key], ParentOntologyId(db.index, d.bt.value).value, d.bt.value)
  {
    var key := DescriptorKey(d);
    var db1 := Admit(db, key, d.active);
    ProcessedCases(db, d, langualImport);
    var p := Parented(db1.index, key, d);
    if p.Ok? && FirstParentValue(p.value) != Some(d.bt.value) {
      var pid := ParentOntologyId(db1.index, d.bt.value).value;
      FirstParentSentinel(db1.index[key], pid, d.bt.value);
      assert key in db.index;
    } else if p.Ok? {
      ReconciledIgnored(db1, key, p.value, d);
    }
  }

  lemma ParentedKeeps(index: map<string, Entity>, key: string, d: Descriptor)
    requires key in index && IsAOrdered(index[key])
    ensures var p := Parented(index, key, d);
            p.Ok? ==> p.value == index[key].(isA := p.value.isA, isAOrder := p.value.isAOrder)
  {
  }

  /** `ignore` stops all merging: a record is `Ignored` only for a term stored as
      ignored, and such a term keeps its status, ontology id, records, synonyms and
      taxa, and neither `ontology_index` nor the lookup queue changes. */
  lemma ProcessedIgnored(db: Db, d: Descriptor, langualImport: bool)
    requires AllOrdered(db.index) && Handled(d, langualImport)
    ensures var key := DescriptorKey(d);
            var e0 := Admitted(db.index, d);
            var r := Processed(db, d, langualImport);
            (r.1 == Ignored ==> e0.status == Ignore)
            && (e0.status == Ignore ==>
                  key in r.0.index && r.0.index[key].status == Ignore
                  && r.0.index[key].ontologyId == e0.ontologyId && r.0.index[key].attrs == e0.attrs
                  && r.0.index[key].synonyms == e0.synonyms && r.0.index[key].taxon == e0.taxon
                  && r.0.ontologyIndex == db.ontologyIndex && r.0.queue == db.queue
                  && r.1 != Retired && r.1 != Completed)
  {
    var key := DescriptorKey(d);
    var db1 := Admit(db, key, d.active);
    ProcessedCases(db, d, langualImport);
    var p := Parented(db1.index, key, d);
    ParentedKeeps(db1.index, key, d);
    if p.Ok? && (d.bt.None? || FirstParentValue(p.value) == Some(d.bt.value)) {
      ReconciledIgnored(db1, key, p.value, d);
    }
  }

  /** A retired or completed term has an ontology id, the one it had if it had one
      (else `get_ontology_id` of its code), and `ontology_index` maps that id back to
      the term. */
  lemma ProcessedIdentified(db: Db, d: Descriptor, langualImport: bool)
    requires AllOrdered(db.index) && Handled(d, langualImport)
    ensures var key := DescriptorKey(d);
            var e0 := Admitted(db.index, d);
            var r := Processed(db, d, langualImport);
            r.1 == Retired || r.1 == Completed ==>
              key in r.0.index && r.0.index[key].ontologyId.Some?
              && r.0.ontologyIndex == db.ontologyIndex[r.0.index[key].ontologyId.value := e0.databaseId]
              && (e0.ontologyId.Some? ==> r.0.index[key].ontologyId == e0.ontologyId)
              && (e0.ontologyId.None? ==> GetOntologyId(key) == Ok(r.0.index[key].ontologyId.value))
  {
    var key := DescriptorKey(d);
    var db1 := Admit(db, key, d.active);
    ProcessedCases(db, d, langualImport);
    var p := Parented(db1.index, key, d);
    ParentedKeeps(db1.index, key, d);
    if p.Ok? && (d.bt.None? || FirstParentValue(p.value) == Some(d.bt.value)) {
      ReconciledIdentified(db1, key, p.value, d);
    }
  }

  /** A term is retired when it was deprecated or its record deprecates it (ACTIVE
      'False', or the scope note's phrase), and then gets no facet or synonym work;
      a completed term is a draft or import the record leaves active, and has every
      ordinary SYNONYM text among its synonyms. */
  lemma ProcessedRetired(db: Db, d: Descriptor, langualImport: bool)
    requires AllOrdered(db.index) && Handled(d, langualImport)
    ensures var key := DescriptorKey(d);
            var e0 := Admitted(db.index, d);
            var r := Processed(db, d, langualImport);
            var retires := e0.status == Deprecated || XmlValue(d.active) == Some("False")
                           || (d.sn.Some? && Contains(d.sn.value, NoNewIndexing));
            (r.1 == Retired ==> retires && key in r.0.index && r.0.index[key].status == Deprecated && r.0.queue == db.queue)
            && (r.1 == Completed ==> !retires && (e0.status == Draft || e0.status == Import)
                                     && key in r.0.index && r.0.index[key].status == e0.status
                                     && PlainTexts(d.synonyms) <= r.0.index[key].synonyms.Keys)
  {
    var key := DescriptorKey(d);
    var db1 := Admit(db, key, d.active);
    ProcessedCases(db, d, langualImport);
    var p := Parented(db1.index, key, d);
    ParentedKeeps(db1.index, key, d);
    if p.Ok? && (d.bt.None? || FirstParentValue(p.value) == Some(d.bt.value)) {
      ReconciledIgnored(db1, key, p.value, d);
      ReconciledRetired(db1, key, p.value, d);
    }
  }

  lemma ReconciledStatus(db: Db, key: string, e: Entity, d: Descriptor)
    ensures var r := Reconciled(db, key, e, d);
            key in r.0.index && StatusFollows(e.status, r.0.index[key].status)
  {
    var e2 := Reviewed(e, key, d);
    ReviewedKeeps(e, key, d);
    var reviewed := e.status != Ignore && e.status != Deprecated;
    if !(reviewed && key == "") && e2.status != Ignore && OntologyIdFor(e2, key).Ok? {
      IdentifiedTerm(db, key, e2, OntologyIdFor(e2, key).value, d);
    }
  }

  /** Every record leaves its term's status where `StatusFollows` allows: a new
      term starts as a draft, and status only ever moves down to deprecated. */
  lemma ProcessedStatus(db: Db, d: Descriptor, langualImport: bool)
    requires AllOrdered(db.index) && Handled(d, langualImport)
    ensures var key := DescriptorKey(d);
            var r := Processed(db, d, langualImport);
            key in r.0.index && r.0.index[key].databaseId == Admitted(db.index, d).databaseId
            && StatusFollows(Admitted(db.index, d).status, r.0.index[key].status)
            && (key !in db.index ==> r.0.index[key].databaseId == key && r.0.index[key].status in {Draft, Deprecated})
  {
    var key := DescriptorKey(d);
    var db1 := Admit(db, key, d.active);
    ProcessedCases(db, d, langualImport);
    var p := Parented(db1.index, key, d);
    ParentedKeeps(db1.index, key, d);
    if p.Ok? && (d.bt.None? || FirstParentValue(p.value) == Some(d.bt.value)) {
      ReconciledStatus(db1, key, p.value, d);
      ReconciledTerm(db1, key, p.value, d);
    } else if p.Ok? {
      assert Processed(db, d, langualImport).0.index[key] == p.value;
    } else {
      assert Processed(db, d, langualImport).0 == db1;
    }
  }

  lemma EvolvedAt(index0: map<string, Entity>, index: map<string, Entity>, key: string)
    requires Evolved(index0, index) && key in index0
    ensures key in index && Evolves(index0[key], index[key])
  {
  }

  // ---------------------------------------------------------------------
  // The whole loop over the descriptors

  /** The reconciliation loop over the descriptors in document order. The first
      uncaught exception stops it and is the run's failure. */
  function ProcessedAll(db: Db, ds: seq<Descriptor>, langualImport: bool): (r: (Db, Option<string>))
    requires DbValid(db)
    ensures DbValid(r.0) && Evolved(db.index, r.0.index)
    decreases |ds|
  {
    if ds == [] then
      EvolvedRefl(db.index);
      (db, None)
    else
      ProcessedSound(db, ds[0], langualImport);
      var step := Processed(db, ds[0], langualImport);
      if step.1.Failed? then (step.0, Some(step.1.reason))
      else
        var r := ProcessedAll(step.0, ds[1..], langualImport);
        EvolvedTrans(db.index, step.0.index, r.0.index);
        r
  }

  /** Running two lists of descriptors one after the other is running their
      concatenation, unless the first one fails. */
  lemma {:induction false} ProcessedAllAppend(db: Db, a: seq<Descriptor>, b: seq<Descriptor>, langualImport: bool)
    requires DbValid(db)
    ensures var ra := ProcessedAll(db, a, langualImport);
            ProcessedAll(db, a + b, langualImport)
              == if ra.1.Some? then ra else ProcessedAll(ra.0, b, langualImport)
    decreases |a|
  {
    if a == [] {
      assert a + b == b;
    } else {
      assert (a + b)[0] == a[0] && (a + b)[1..] == a[1..] + b;
      var step := Processed(db, a[0], langualImport);
      if !step.1.Failed? {
        ProcessedSound(db, a[0], langualImport);
        ProcessedAllAppend(step.0, a[1..], b, langualImport);
      }
    }
  }

  /** A descriptor whose FTC has no text makes the run fail, at that descriptor or
      before it. */
  lemma {:induction false} ProcessedAllNeedsFtc(db: Db, ds: seq<Descriptor>, langualImport: bool, j: nat)
    requires DbValid(db) && j < |ds| && (ds[j].ftc.None? || ds[j].ftc.value == "")
    ensures ProcessedAll(db, ds, langualImport).1.Some?
    decreases j
  {
    var step := Processed(db, ds[0], langualImport);
    if j > 0 && !step.1.Failed? {
      ProcessedSound(db, ds[0], langualImport);
      assert ds[1..][j - 1] == ds[j];
      ProcessedAllNeedsFtc(step.0, ds[1..], langualImport, j - 1);
    }
  }

  /** A list of descriptors all of the other run's facets changes nothing. */
  lemma {:induction false} ProcessedAllOtherRun(db: Db, ds: seq<Descriptor>, langualImport: bool)
    requires DbValid(db)
    requires forall j :: 0 <= j < |ds| ==> ds[j].ftc.Some? && ds[j].ftc.value != "" && SkipsCategory(langualImport, ds[j].ftc.value[0])
    ensures ProcessedAll(db, ds, langualImport) == (db, None)
    decreases |ds|
  {
    if ds != [] {
      ProcessedSkipped(db, ds[0], langualImport);
      ProcessedAllOtherRun(db, ds[1..], langualImport);
    }
  }

  /** The key of a handled descriptor of the list. */
  ghost predicate KeyOf(ds: seq<Descriptor>, langualImport: bool, k: string) {
    exists j :: 0 <= j < |ds| && Handled(ds[j], langualImport) && DescriptorKey(ds[j]) == k
  }

  /** Every term of `db'` that is new or differs from `db`'s is the term of a handled
      descriptor of `ds`, and `db`'s order is kept as a prefix. */
  ghost predicate ChangedBy(db: Db, db': Db, ds: seq<Descriptor>, langualImport: bool) {
    (forall k :: k in db'.index && (k !in db.index || db'.index[k] != db.index[k]) ==> KeyOf(ds, langualImport, k))
    && db.order <= db'.order
  }

  lemma ChangedByStep(db: Db, mid: Db, r: Db, ds: seq<Descriptor>, langualImport: bool)
    requires ds != []
    requires mid == db || (Handled(ds[0], langualImport) && Touched(db, mid, DescriptorKey(ds[0])))
    requires ChangedBy(mid, r, ds[1..], langualImport)
    ensures ChangedBy(db, r, ds, langualImport)
  {
    forall k | k in r.index && (k !in db.index || r.index[k] != db.index[k]) ensures KeyOf(ds, langualImport, k) {
      if k in mid.index && k in db.index && mid.index[k] == db.index[k] {
        var j :| 0 <= j < |ds[1..]| && Handled(ds[1..][j], langualImport) && DescriptorKey(ds[1..][j]) == k;
        assert ds[j + 1] == ds[1..][j];
      } else if mid != db && k == DescriptorKey(ds[0]) {
        assert Handled(ds[0], langualImport);
      } else {
        var j :| 0 <= j < |ds[1..]| && Handled(ds[1..][j], langualImport) && DescriptorKey(ds[1..][j]) == k;
        assert ds[j + 1] == ds[1..][j];
      }
    }
  }

  /** The run changes only the terms of the descriptors it handles, and keeps the
      order of the terms it started with, appending new ones. */
  lemma {:induction false} ProcessedAllFrame(db: Db, ds: seq<Descriptor>, langualImport: bool)
    requires DbValid(db)
    ensures ChangedBy(db, ProcessedAll(db, ds, langualImport).0, ds, langualImport)
    decreases |ds|
  {
    if ds != [] {
      var step := Processed(db, ds[0], langualImport);
      ProcessedFrame(db, ds[0], langualImport);
      ProcessedSound(db, ds[0], langualImport);
      if !step.1.Failed? {
        ProcessedAllFrame(step.0, ds[1..], langualImport);
        ChangedByStep(db, step.0, ProcessedAll(step.0, ds[1..], langualImport).0, ds, langualImport);
      } else {
        ChangedByStep(db, step.0, step.0, ds, langualImport);
      }
    }
  }

  // ---------------------------------------------------------------------
  // `getEOLNCBITaxonData`

  function ProviderIds(qs: seq<Queued>): (r: seq<string>)
    ensures |r| == |qs| && forall i :: 0 <= i < |qs| ==> r[i] == qs[i].providerId
  {
    seq(|qs|, i requires 0 <= i < |qs| => qs[i].providerId)
  }

  /** `provider_ncbitaxon_map`: the provider search and the page reads run once, on
      the ids of the provider the dictionary yields last; `search` and `concepts` are
      EOL's answers. */
  function EolAnswers(queue: map<string, seq<Queued>>, providers: seq<string>, search: map<string, string>,
                      concepts: map<string, seq<Concept>>): map<string, Hit>
    requires ProviderOrder(providers) && queue.Keys == LookupProviders
  {
    var ids := SortedDistinct(ProviderIds(queue[providers[|providers| - 1]]));
    NcbiOf(PagesOf(ids, search), ProviderOfPage(ids, search), concepts)
  }

  /** The lookups of every provider, in dictionary order, written back with those
      answers. */
  function NcbiTaxonData(db: Db, providers: seq<string>, search: map<string, string>,
                         concepts: map<string, seq<Concept>>): Result<map<string, Entity>>
    requires DbValid(db) && ProviderOrder(providers)
  {
    PendingKeys(db, providers);
    WrittenBack(db.index, PendingOf(db.queue, providers), EolAnswers(db.queue, providers, search, concepts))
  }

  lemma PendingKeys(db: Db, providers: seq<string>)
    requires DbValid(db) && ProviderOrder(providers)
    ensures forall i :: 0 <= i < |PendingOf(db.queue, providers)| ==> PendingOf(db.queue, providers)[i].entry.key in db.index
    ensures forall i :: 0 <= i < |PendingOf(db.queue, providers)| ==>
              QueuedValid(db.index, PendingOf(db.queue, providers)[i].provider, PendingOf(db.queue, providers)[i].entry)
  {
    var pending := PendingOf(db.queue, providers);
    PendingOfElements(db.queue, providers);
    forall i | 0 <= i < |pending|
      ensures pending[i].entry.key in db.index && QueuedValid(db.index, pending[i].provider, pending[i].entry)
    {
      assert pending[i] in pending;
    }
  }

  /** The write-back keeps the database valid and only evolves terms, and afterwards
      every queued lookup is answered. */
  lemma NcbiTaxonDataSound(db: Db, providers: seq<string>, search: map<string, string>, concepts: map<string, seq<Concept>>)
    requires DbValid(db) && ProviderOrder(providers)
    ensures var r := NcbiTaxonData(db, providers, search, concepts);
            r.Ok? ==> DbValid(db.(index := r.value)) && Evolved(db.index, r.value) && Answered(r.value, db.queue)
  {
    var pending := PendingOf(db.queue, providers);
    var ncbi := EolAnswers(db.queue, providers, search, concepts);
    PendingKeys(db, providers);
    WrittenBackSound(db.index, pending, ncbi);
    var r := WrittenBack(db.index, pending, ncbi);
    if r.Ok? {
      QueueValidEvolved(db.index, r.value, db.queue);
      PendingOfElements(db.queue, providers);
      AnsweredAll(r.value, db.queue, pending);
    }
  }

  lemma AnsweredAll(index: map<string, Entity>, queue: map<string, seq<Queued>>, pending: seq<Pending>)
    requires QueueValid(index, queue) && AllAnswered(index, pending)
    requires forall p, q :: p in queue && q in queue[p] ==> Pending(p, q) in pending
    ensures Answered(index, queue)
  {
    forall p, q | p in queue && q in queue[p] ensures "NCBITaxon" in index[q.key].taxon[q.taxonName] {
      var i :| 0 <= i < |pending| && pending[i] == Pending(p, q);
      assert HasNcbi(index, pending[i].entry);
    }
  }

  /** The write-back fails only on a rank mismatch of a queued lookup: EOL's answer
      names another rank and the taxon entry lacks the record Python then indexes. */
  lemma NcbiTaxonDataFails(db: Db, providers: seq<string>, search: map<string, string>, concepts: map<string, seq<Concept>>)
    requires DbValid(db) && ProviderOrder(providers)
    ensures NcbiTaxonData(db, providers, search, concepts).Err? ==>
              exists p, q :: p in db.queue && q in db.queue[p] && Mismatch(Pending(p, q), EolAnswers(db.queue, providers, search, concepts))
  {
    var pending := PendingOf(db.queue, providers);
    var ncbi := EolAnswers(db.queue, providers, search, concepts);
    PendingKeys(db, providers);
    WrittenBackSound(db.index, pending, ncbi);
    if WrittenBack(db.index, pending, ncbi).Err? {
      PendingOfElements(db.queue, providers);
      var i :| 0 <= i < |pending| && Mismatch(pending[i], ncbi);
      assert pending[i] in pending;
    }
  }

  /** The write-back loop of `getEOLNCBITaxonData` over the pending lookups; the
      first KeyError stops it. */
  method WriteBackAll(index: map<string, Entity>, pending: seq<Pending>, ncbi: map<string, Hit>)
    returns (updated: map<string, Entity>, failure: Option<string>)
    requires forall i :: 0 <= i < |pending| ==> pending[i].entry.key in index
    ensures var r := WrittenBack(index, pending, ncbi);
            (r.Ok? <==> failure.None?) && (r.Ok? ==> updated == r.value) && (r.Err? ==> failure == Some(r.reason))
  {
    updated := index;
    for i := 0 to |pending|
      invariant WrittenBack(index, pending[..i], ncbi) == Ok(updated)
    {
      assert pending[..i + 1][..i] == pending[..i];
      var pe := pending[i];
      var hit := if pe.entry.providerId in ncbi then Some(ncbi[pe.entry.providerId]) else None;
      var e := WriteBack(updated[pe.entry.key], pe.entry.taxonName, pe.provider, hit);
      if e.Err? {
        WrittenBackErrPrefix(index, pending, ncbi, i + 1);
        return updated, Some(e.reason);
      }
      updated := updated[pe.entry.key := e.value];
    }
    assert pending[..|pending|] == pending;
    failure := None;
  }

  /** Whether the override of `updateDatabaseOntologyIds` gets through: every term
      whose database id is in the lookup table already has an ontology id. */
  ghost predicate Overridable(db: Db, lookup: map<string, string>) {
    forall k :: k in db.index && db.index[k].databaseId in lookup ==> db.index[k].ontologyId.Some?
  }

  /** The database after the override of `updateDatabaseOntologyIds`. */
  function Overridden(db: Db, lookup: map<string, string>): (r: Db)
    requires DbValid(db)
    ensures DbValid(r) && r.order == db.order && r.queue == db.queue
  {
    RetargetedKeysAll(db.index, db.order, lookup);
    SameButIdsValid(db.index, Retargeted(db.index, lookup), db.order, db.queue);
    db.(index := Retargeted(db.index, lookup), ontologyIndex := OverriddenIndex(db.ontologyIndex, db.index, db.order, lookup))
  }

  /** The reverse label lookup that `makeLableLookup` enters for a run, or nothing
      when the override stops the run first. */
  ghost function ImportedLabels(db: Db, lookup: map<string, string>): map<string, string>
    requires DbValid(db)
  {
    if Overridable(db, lookup) then LabelLookup(Overridden(db, lookup).index, db.order).0 else map[]
  }

  /** `updateDatabaseOntologyIds`: the override, then the reverse label lookup. A
      failure is the uncaught exception that ends the run. After a failed override
      the database is the one from before the override, since nothing of the
      partly retargeted index is written; after a failed label lookup it is the
      overridden one. */
  ghost function Updated(db: Db, lookup: map<string, string>): (r: (Db, Option<string>))
    requires DbValid(db)
    ensures DbValid(r.0)
  {
    if !Overridable(db, lookup) then (db, Some(OverrideFailure))
    else
      var db1 := Overridden(db, lookup);
      (db1, if LabelLookup(db1.index, db1.order).1 then None else Some(LabelFailure))
  }

  /** The reconciliation loop and, in the main run, the NCBITaxon write-back. */
  ghost function FinishedRun(db: Db, ds: seq<Descriptor>, providers: seq<string>, search: map<string, string>,
                           concepts: map<string, seq<Concept>>, langualImport: bool): (r: (Db, Option<string>))
    requires DbValid(db) && ProviderOrder(providers)
    ensures DbValid(r.0)
  {
    var p := ProcessedAll(db, ds, langualImport);
    if p.1.Some? || !langualImport then p
    else
      NcbiTaxonDataSound(p.0, providers, search, concepts);
      var w := NcbiTaxonData(p.0, providers, search, concepts);
      if w.Ok? then (p.0.(index := w.value), None) else (p.0, Some(w.reason))
  }

  /** `__main__` once the database is loaded: the two phases above, the second only
      when the first gets through. */
  ghost function Imported(db: Db, lookup: map<string, string>, ds: seq<Descriptor>, providers: seq<string>,
                          search: map<string, string>, concepts: map<string, seq<Concept>>,
                          langualImport: bool): (r: (Db, Option<string>))
    requires DbValid(db) && ProviderOrder(providers)
    ensures DbValid(r.0)
  {
    var u := Updated(db, lookup);
    if u.1.Some? then u else FinishedRun(u.0, ds, providers, search, concepts, langualImport)
  }

  const OverrideFailure := "KeyError: ontology_id"
  const LabelFailure := "makeLableLookup: a term without a label"

  // ---------------------------------------------------------------------
  // The importer

  class Importer {
    /** `database['index']` and the key order of its `OrderedDict`. */
    var index: map<string, Entity>
    var order: seq<string>
    /** `ontology_index`: ontology id to database id. */
    var ontologyIndex: map<string, string>
    /** `label_reverse_lookup`: lowercased label to database id. */
    var labelReverseLookup: map<string, string>
    /** `NCBITaxon_lookup`: the pending lookups of each provider. */
    var lookupQueue: map<string, seq<Queued>>
    /** The main run (`langual_import`) rather than the Product Type run. */
    const langualImport: bool

    /** The state the loop body is specified on. */
    function Abstract(): Db
      reads this
    {
      Db(index, order, ontologyIndex, lookupQueue)
    }

    ghost predicate Valid()
      reads this
    {
      DbValid(Abstract())
    }

    /** A fresh importer over the database loaded from JSON. */
    constructor (index: map<string, Entity>, order: seq<string>, langualImport: bool)
      requires IndexOrdered(index, order)
      requires AllOrdered(index)
      ensures Valid()
      ensures this.index == index && this.order == order && this.langualImport == langualImport
      ensures ontologyIndex == map[] && labelReverseLookup == map[]
      ensures lookupQueue == map["ITIS" := [], "INDEX FUNGORUM" := []]
    {
      this.index := index;
      this.order := order;
      this.langualImport := langualImport;
      ontologyIndex := map[];
      labelReverseLookup := map[];
      lookupQueue := map["ITIS" := [], "INDEX FUNGORUM" := []];
    }

    /** `updateDatabaseOntologyIds`: the override, then `makeLableLookup`. */
    method UpdateDatabaseOntologyIds(lookup: map<string, string>) returns (failure: Option<string>)
      requires Valid()
      modifies this`index, this`ontologyIndex, this`labelReverseLookup
      ensures Valid()
      ensures (Abstract(), failure) == Updated(old(Abstract()), lookup)
      ensures labelReverseLookup == old(labelReverseLookup) + ImportedLabels(old(Abstract()), lookup)
      ensures failure.None? ==> forall k :: Eligible(index, k) ==> LabelKey(index[k]).Some? && LabelKey(index[k]).value in labelReverseLookup
    {
      ghost var db0, labels0 := Abstract(), labelReverseLookup;
      var ok := OverrideOntologyIds(lookup);
      if !ok {
        assert labelReverseLookup == labels0 + map[];
        return Some(OverrideFailure);
      }
      assert Overridable(db0, lookup) && Abstract() == Overridden(db0, lookup);
      ok := MakeLabelLookup();
      failure := if ok then None else Some(LabelFailure);
    }

    /** The override loop of `updateDatabaseOntologyIds` on the importer's state.
        A KeyError ends the run before the database is written, so the state is
        left as it was. */
    method OverrideOntologyIds(lookup: map<string, string>) returns (ok: bool)
      requires Valid()
      modifies this`index, this`ontologyIndex
      ensures Valid()
      ensures ok <==> forall k :: k in old(index) && old(index)[k].databaseId in lookup ==> old(index)[k].ontologyId.Some?
      ensures ok ==> index == Retargeted(old(index), lookup)
                     && ontologyIndex == OverriddenIndex(old(ontologyIndex), old(index), order, lookup)
      ensures !ok ==> index == old(index) && ontologyIndex == old(ontologyIndex)
    {
      var idx, oi;
      idx, oi, ok := OverrideIds(index, order, ontologyIndex, lookup);
      assert ok <==> forall k :: k in index && index[k].databaseId in lookup ==> index[k].ontologyId.Some? by {
        if !ok {
          var j :| 0 <= j < |order| && index[order[j]].databaseId in lookup && index[order[j]].ontologyId.None?;
        }
      }
      if ok {
        RetargetedKeysAll(index, order, lookup);
        SameButIdsValid(index, idx, order, lookupQueue);
        index, ontologyIndex := idx, oi;
      }
    }

    /** `makeLableLookup`: the reverse label lookup over the index, in index order. */
    method MakeLabelLookup() returns (ok: bool)
      requires Valid()
      modifies this`labelReverseLookup
      ensures ok ==> forall l :: l in labelReverseLookup && l !in old(labelReverseLookup) ==>
                Eligible(index, labelReverseLookup[l]) && LabelKey(index[labelReverseLookup[l]]) == Some(l)
      ensures ok ==> forall k :: Eligible(index, k) ==> LabelKey(index[k]).Some? && LabelKey(index[k]).value in labelReverseLookup
      ensures ok ==> forall k :: Eligible(index, k) ==>
                exists i :: LastLabelled(index, order, i, LabelKey(index[k]).value)
                            && order[i] == labelReverseLookup[LabelKey(index[k]).value]
      ensures !ok ==> exists i :: 0 <= i < |order| && Unlabelled(index, order[i])
      ensures labelReverseLookup == old(labelReverseLookup) + LabelLookup(index, order).0
              && ok == LabelLookup(index, order).1
    {
      var lookup;
      lookup, ok := BuildLabelReverseLookup(index, order);
      labelReverseLookup := labelReverseLookup + lookup;
      if ok {
        forall k | Eligible(index, k)
          ensures LabelKey(index[k]).Some? && LabelKey(index[k]).value in lookup
          ensures exists i :: LastLabelled(index, order, i, LabelKey(index[k]).value)
                              && order[i] == labelReverseLookup[LabelKey(index[k]).value]
        {
          var j :| 0 <= j < |order| && order[j] == k;
          var l := LabelKey(index[k]).value;
          assert labelReverseLookup[l] == lookup[l];
        }
      }
    }

    /** `__main__` once the database is loaded: the lookup-table override and the
        reverse label lookup, the reconciliation loop and, in the main run, the
        NCBITaxon lookups. A failure is the uncaught exception that ends the run
        before the database is written. */
    method Import(lookup: map<string, string>, ds: seq<Descriptor>, providers: seq<string>,
                  search: map<string, string>, concepts: map<string, seq<Concept>>)
      returns (failure: Option<string>)
      requires Valid() && ProviderOrder(providers)
      modifies this`index, this`order, this`ontologyIndex, this`labelReverseLookup, this`lookupQueue
      ensures Valid()
      ensures failure.None? && langualImport ==> Answered(index, lookupQueue)
      ensures (Abstract(), failure) == Imported(old(Abstract()), lookup, ds, providers, search, concepts, langualImport)
      ensures labelReverseLookup == old(labelReverseLookup) + ImportedLabels(old(Abstract()), lookup)
    {
      failure := UpdateDatabaseOntologyIds(lookup);
      if failure.Some? {
        return;
      }
      failure := Complete(ds, providers, search, concepts);
    }

    /** What `__main__` does after `updateDatabaseOntologyIds`. */
    method Complete(ds: seq<Descriptor>, providers: seq<string>, search: map<string, string>,
                    concepts: map<string, seq<Concept>>)
      returns (failure: Option<string>)
      requires Valid() && ProviderOrder(providers)
      modifies this`index, this`order, this`ontologyIndex, this`lookupQueue
      ensures Valid()
      ensures failure.None? && langualImport ==> Answered(index, lookupQueue)
      ensures (Abstract(), failure) == FinishedRun(old(Abstract()), ds, providers, search, concepts, langualImport)
    {
      failure := ProcessAll(ds);
      if failure.None? && langualImport {
        var searchRequests, pageRequests;
        searchRequests, pageRequests, failure := GetEOLNCBITaxonData(providers, search, concepts);
      }
    }

    /** The reconciliation loop of `__main__` over the `<DESCRIPTOR>` elements in
        document order; it stops at the first uncaught exception. */
    method ProcessAll(ds: seq<Descriptor>) returns (failure: Option<string>)
      requires Valid()
      modifies this`index, this`order, this`ontologyIndex, this`lookupQueue
      ensures Valid()
      ensures (Abstract(), failure) == ProcessedAll(old(Abstract()), ds, langualImport)
    {
      ghost var db0 := Abstract();
      var i := 0;
      while i < |ds|
        invariant 0 <= i <= |ds| && Valid()
        invariant ProcessedAll(db0, ds, langualImport) == ProcessedAll(Abstract(), ds[i..], langualImport)
      {
        assert ds[i..][0] == ds[i] && ds[i..][1..] == ds[i + 1..];
        var outcome := ProcessDescriptor(ds[i]);
        if outcome.Failed? {
          return Some(outcome.reason);
        }
        i := i + 1;
      }
      return None;
    }

    /** `getEOLNCBITaxonData`: the EOL lookups of the queued provider ids, then the
        write-back of every queued lookup. `providers` is the dictionary's iteration
        order; `search` and `concepts` are EOL's answers. A KeyError on a rank mismatch
        ends the run before the database is written, so the index is then left as it
        was. */
    method GetEOLNCBITaxonData(providers: seq<string>, search: map<string, string>, concepts: map<string, seq<Concept>>)
      returns (searchRequests: seq<seq<string>>, pageRequests: seq<seq<string>>, failure: Option<string>)
      requires Valid() && ProviderOrder(providers)
      modifies this`index
      ensures Valid()
      ensures var ids := SortedDistinct(ProviderIds(lookupQueue[providers[|providers| - 1]]));
              Flatten(searchRequests) == ids && WellBatched(searchRequests)
              && Flatten(pageRequests) == PagesOf(ids, search) && WellBatched(pageRequests)
      ensures var r := NcbiTaxonData(old(Abstract()), providers, search, concepts);
              (r.Ok? ==> failure.None? && index == r.value && Answered(index, lookupQueue))
              && (r.Err? ==> failure == Some(r.reason) && index == old(index))
      ensures failure.None? ==> Answered(index, lookupQueue)
    {
      ghost var db := Abstract();
      var ncbi;
      searchRequests, pageRequests, ncbi := EolLookups(providers, search, concepts);
      var pending := WriteBackQueue(providers);
      PendingKeys(db, providers);
      NcbiTaxonDataSound(db, providers, search, concepts);
      ghost var r := NcbiTaxonData(db, providers, search, concepts);
      assert r == WrittenBack(index, pending, ncbi);
      var updated;
      updated, failure := WriteBackAll(index, pending, ncbi);
      if failure.None? {
        index := updated;
        assert Abstract() == db.(index := r.value);
      }
    }

    /** The provider search and the page reads, on the ids of the provider the
        dictionary yields last. */
    method EolLookups(providers: seq<string>, search: map<string, string>, concepts: map<string, seq<Concept>>)
      returns (searchRequests: seq<seq<string>>, pageRequests: seq<seq<string>>, ncbi: map<string, Hit>)
      requires lookupQueue.Keys == LookupProviders && ProviderOrder(providers)
      ensures var ids := SortedDistinct(ProviderIds(lookupQueue[providers[|providers| - 1]]));
              Flatten(searchRequests) == ids && WellBatched(searchRequests)
              && Flatten(pageRequests) == PagesOf(ids, search) && WellBatched(pageRequests)
      ensures ncbi == EolAnswers(lookupQueue, providers, search, concepts)
    {
      var ids := [];
      var last := lookupQueue[providers[|providers| - 1]];
      for k := 0 to |last|
        invariant ids == ProviderIds(last[..k])
      {
        ids := ids + [last[k].providerId];
      }
      assert last[..|last|] == last;
      ids := SortedDistinct(ids);
      var providerOfPage, pages;
      searchRequests, providerOfPage, pages := SearchByProvider(ids, search);
      pageRequests, ncbi := ReadPages(pages, providerOfPage, concepts);
    }

    /** The lookups of each provider in dictionary order, each list in order. */
    method WriteBackQueue(providers: seq<string>) returns (pending: seq<Pending>)
      requires lookupQueue.Keys == LookupProviders && ProviderOrder(providers)
      ensures pending == PendingOf(lookupQueue, providers)
    {
      pending := [];
      for j := 0 to |providers|
        invariant pending == PendingOf(lookupQueue, providers[..j])
      {
        assert providers[..j + 1][..j] == providers[..j];
        var p := providers[j];
        var qs := lookupQueue[p];
        var tagged := [];
        for k := 0 to |qs|
          invariant tagged == Tagged(p, qs[..k])
        {
          tagged := tagged + [Pending(p, qs[k])];
        }
        assert qs[..|qs|] == qs;
        pending := pending + tagged;
      }
      assert providers[..|providers|] == providers;
    }

    /** The body of the reconciliation loop on one `<DESCRIPTOR>`, in place. */
    method ProcessDescriptor(d: Descriptor) returns (outcome: Outcome)
      requires Valid()
      modifies this`index, this`order, this`ontologyIndex, this`lookupQueue
      ensures Valid()
      ensures (Abstract(), outcome) == Processed(old(Abstract()), d, langualImport)
    {
      ghost var db := Abstract();
      if d.ftc.None? || d.ftc.value == "" {
        return Failed("TypeError: FTC has no text");
      }
      if SkipsCategory(langualImport, d.ftc.value[0]) {
        return Skipped;
      }
      var databaseId := Strip(d.ftc.value);
      AdmitSound(db, databaseId, d.active);
      AdmitTerm(databaseId, d.active);
      outcome := Place(databaseId, d);
      ProcessedSound(db, d, langualImport);
    }

    /** A code seen for the first time is stored as a skeleton at the end of the index. */
    method AdmitTerm(key: string, active: Option<string>)
      modifies this`index, this`order
      ensures Abstract() == Admit(old(Abstract()), key, active)
    {
      if key !in index {
        index := index[key := NewEntity(key, XmlValue(active))];
        order := order + [key];
      }
    }

    /** The loop body once the record's term is in the index. */
    method Place(key: string, d: Descriptor) returns (outcome: Outcome)
      requires key in index && IsAOrdered(index[key])
      modifies this`index, this`ontologyIndex, this`lookupQueue
      ensures (Abstract(), outcome) == Placed(old(Abstract()), key, d)
    {
      var parented := AddBroaderTerm(key, d);
      if parented.Err? {
        return Failed(parented.reason);
      }
      var entity := parented.value;
      if d.bt.Some? && FirstParentValue(entity) != Some(d.bt.value) {
        index := index[key := entity];
        return LaterParent;
      }
      outcome := Reconcile(key, entity, d);
    }

    /** The `is_a` entry of the record's BT: the parent's ontology id comes from the
        index (a KeyError when the stored parent has none) or from `get_ontology_id`. */
    method AddBroaderTerm(key: string, d: Descriptor) returns (r: Result<Entity>)
      requires key in index && IsAOrdered(index[key])
      ensures r == Parented(index, key, d)
    {
      if d.bt.None? {
        return Ok(index[key]);
      }
      var parentId := d.bt.value;
      var parentOntologyId;
      if parentId in index {
        if index[parentId].ontologyId.None? {
          return Err("KeyError: ontology_id");
        }
        parentOntologyId := index[parentId].ontologyId.value;
      } else {
        var id := GetOntologyId(parentId);
        if id.Err? {
          return Err(id.reason);
        }
        parentOntologyId := id.value;
      }
      r := Ok(AddParent(index[key], parentOntologyId, parentId));
    }

    /** The rest of the loop body once the record passed the parent sentinel: the
        LANGUAL self-reference, the status review, then the ontology id. */
    method Reconcile(key: string, e: Entity, d: Descriptor) returns (outcome: Outcome)
      modifies this`index, this`ontologyIndex, this`lookupQueue
      ensures (Abstract(), outcome) == Reconciled(old(Abstract()), key, e, d)
    {
      var entity := Reviewed(e, key, d);
      if e.status != Ignore && e.status != Deprecated && key == "" {
        index := index[key := entity];
        return Failed("IndexError: database_id[0]");
      }
      if entity.status == Ignore {
        index := index[key := entity];
        return Ignored;
      }
      var id := if entity.ontologyId.Some? then Ok(entity.ontologyId.value) else GetOntologyId(key);
      if id.Err? {
        index := index[key := entity];
        return Failed(id.reason);
      }
      outcome := Identify(key, entity, id.value, d);
    }

    /** The term with its ontology id: `ontology_index`, label and comment; a
        deprecated term stops there. */
    method Identify(key: string, e: Entity, oid: string, d: Descriptor) returns (outcome: Outcome)
      modifies this`index, this`ontologyIndex, this`lookupQueue
      ensures (Abstract(), outcome) == Identified(old(Abstract()), key, e, oid, d)
    {
      var entity := Labelled(e.(ontologyId := Some(oid)), d);
      ontologyIndex := ontologyIndex[oid := entity.databaseId];
      index := index[key := entity];
      if entity.status == Deprecated {
        return Retired;
      }
      if entity.databaseId == "" {
        return Failed("IndexError: database_id[0]");
      }
      outcome := Finish(key, entity, d);
    }

    /** `load_facet_details` (the food-source part) and `load_synonyms`. */
    method Finish(key: string, e: Entity, d: Descriptor) returns (outcome: Outcome)
      modifies this`index, this`lookupQueue
      ensures (Abstract(), outcome) == Finished(old(Abstract()), key, e, d)
    {
      var entity := e;
      if entity.databaseId != "" && entity.databaseId[0] == 'B' && d.ai.Some? && d.ai.value != "" {
        entity, lookupQueue := GetFoodSource(entity, d.taxonomy, key, lookupQueue);
      }
      var xrefs, synonyms, ok := LoadSynonyms(entity.xrefs, entity.synonyms, d.synonyms);
      if ok {
        entity := entity.(xrefs := xrefs, synonyms := synonyms);
      }
      index := index[key := entity];
      outcome := if ok then Completed else Failed("TypeError: SYNONYM without text");
    }
  }

}
