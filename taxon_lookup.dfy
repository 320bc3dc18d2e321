// The food-source taxonomy of the LanguaL importer
// (src/ontology/imports/langual/langual.py, `getFoodSource` and
// `getEOLNCBITaxonData`): keying the taxonomy lines of a descriptor, the
// de-duplicated, sorted and batched lookups of provider ids (ITIS, INDEX
// FUNGORUM) against EOL, and the write-back of the NCBITaxon answers.
module TaxonLookup {
  import opened Wrappers
  import opened PyStr
  import opened AttributeStore
  import opened Store

  /** What the taxonomy pattern captures on one AI line: the rank tag, the name, and
      either a bare reference (`[FAO ASFIS BFW]`) or a database and an id (`[ITIS 69458]`). */
  datatype TaxonMatch = TaxonMatch(rank: string, name: string, source: TaxonSource)
  datatype TaxonSource = Ref(ref: string) | DbId(db: string, id: string)

  /** `ranklookup`: LanguaL rank tags (typos included) to NCBI rank names. */
  const RankTable: map<string, string> := map[
    "SCIDIV" := "phylum", "SCIPHY" := "phylum", "SCISUBPHY" := "subphylum",
    "SCISUPCLASS" := "superclass", "SCICLASS" := "class", "SCIINFCLASS" := "infraclass",
    "SCIORD" := "order", "SCISUBORD" := "suborder", "SCIINFORD" := "infraorder",
    "SCISUPFAM" := "superfamily", "SCIFAM" := "family", "SCISUBFAM" := "subfamily",
    "SCISUNFAM" := "subfamily", "SCITRI" := "tribe", "SCITRIBE" := "tribe",
    "SCIGEN" := "genus", "SCINAM" := "species", "SCISYN" := "species"]

  /** The rank names the table yields. */
  const Ranks: set<string> := {"phylum", "subphylum", "superclass", "class", "infraclass", "order",
    "suborder", "infraorder", "superfamily", "family", "subfamily", "tribe", "genus", "species"}

  function RankLookup(tag: string): (r: Option<string>)
    ensures r.Some? <==> tag in RankTable
    ensures r.Some? ==> r.value in Ranks
  {
    if tag in RankTable then Some(RankTable[tag]) else None
  }

  /** No rank name holds the `:` that separates it from the taxon name. */
  lemma RanksHaveNoColon(rank: string)
    requires rank in Ranks
    ensures forall i :: 0 <= i < |rank| ==> rank[i] != ':'
  {
  }

  /** `DICTION` lines carry the descriptor's dictionary text, not a rank. */
  lemma DictionNotRanked()
    ensures "DICTION" !in RankTable
  {
  }

  /** The `taxon` key, provider database and provider id one taxonomy line yields. */
  datatype TaxonKey = TaxonKey(name: string, db: string, id: string)

  /** The keying of one taxonomy line in `getFoodSource`: the rank tag must be in the
      table (a `DICTION` line or an unknown tag yields nothing), the key is
      "rank:name", the database is the `db` group when present and the bare reference
      otherwise, and the id defaults to the empty string. */
  function KeyTaxon(m: TaxonMatch): (r: Option<TaxonKey>)
    ensures r.None? <==> m.rank !in RankTable
    ensures m.rank == "DICTION" ==> r.None?
    ensures r.Some? ==> r.value.name == RankTable[m.rank] + ":" + Strip(m.name)
    ensures r.Some? && m.source.Ref? ==> r.value.db == m.source.ref && r.value.id == ""
    ensures r.Some? && m.source.DbId? ==> r.value.db == m.source.db && r.value.id == m.source.id
  {
    DictionNotRanked();
    match RankLookup(m.rank)
    case None => None
    case Some(rank) =>
      var db := if m.source.DbId? then m.source.db else m.source.ref;
      var id := if m.source.DbId? then m.source.id else "";
      Some(TaxonKey(rank + ":" + Strip(m.name), db, id))
  }

  /** `taxon_name.split(':', 1)[0]` of a keyed line gives back the NCBI rank, which is
      what the write-back compares with the rank EOL reports. */
  lemma {:induction false} TaxonKeyRank(m: TaxonMatch)
    requires KeyTaxon(m).Some?
    ensures SplitOn(KeyTaxon(m).value.name, ":")[0] == RankTable[m.rank]
  {
    var rank := RankTable[m.rank];
    var s := KeyTaxon(m).value.name;
    RanksHaveNoColon(rank);
    assert OccursAt(s, ":", |rank|);
    forall k | 0 <= k < |rank| ensures !OccursAt(s, ":", k) {
      assert s[k..k + 1][0] == s[k] == rank[k];
    }
    SplitOnUnfold(s, ":", |rank|);
    assert s[..|rank|] == rank;
  }

  /** The taxon record of a keyed line merged into the entity: `taxon[name][db] = id`. */
  function AddTaxon(e: Entity, k: TaxonKey): (r: Entity)
    ensures r.taxon.Keys == e.taxon.Keys + {k.name}
    ensures forall n :: n in e.taxon && n != k.name ==> r.taxon[n] == e.taxon[n]
    ensures r.taxon[k.name] == SetAttributeDiff(if k.name in e.taxon then e.taxon[k.name] else map[], k.db, Some(k.id), None)
    ensures r == e.(taxon := r.taxon)
  {
    var t := if k.name in e.taxon then e.taxon[k.name] else map[];
    e.(taxon := e.taxon[k.name := SetAttributeDiff(t, k.db, Some(k.id), None)])
  }

  /** A pending NCBITaxon lookup: the entity (by database id), the taxon key and the
      provider's id for the taxon. */
  datatype Queued = Queued(key: string, taxonName: string, providerId: string)

  /** The taxon records of the AI lines merged in order (`getFoodSource`); lines the
      pattern does not match, and lines with a rank tag outside the table, add nothing. */
  function TaxaOf(e: Entity, lines: seq<Option<TaxonMatch>>): Entity {
    if lines == [] then e
    else
      var prev := TaxaOf(e, lines[..|lines| - 1]);
      var line := lines[|lines| - 1];
      if line.Some? && KeyTaxon(line.value).Some? then AddTaxon(prev, KeyTaxon(line.value).value) else prev
  }

  /** The lookups queued for `provider` while merging the lines, in order. */
  function QueuedOf(e: Entity, lines: seq<Option<TaxonMatch>>, key: string, provider: string): seq<Queued> {
    if lines == [] then []
    else
      var front := lines[..|lines| - 1];
      var line := lines[|lines| - 1];
      var prev := QueuedOf(e, front, key, provider);
      if line.Some? && KeyTaxon(line.value).Some? && KeyTaxon(line.value).value.db == provider
         && QueuesLookup(TaxaOf(e, front), KeyTaxon(line.value).value)
      then prev + [Queued(key, KeyTaxon(line.value).value.name, KeyTaxon(line.value).value.id)]
      else prev
  }

  /** Taxon entries and their records are only added, locked records are kept, and
      nothing new is locked. */
  ghost predicate TaxonLocksKept(t0: map<string, Attrs>, t: map<string, Attrs>) {
    (forall n :: n in t0 ==> n in t && t0[n].Keys <= t[n].Keys && LocksKept(t0[n], t[n]))
    && (forall n :: n in t && n !in t0 ==> NoNewLocks(map[], t[n]))
  }

  lemma TaxonLocksKeptTrans(t0: map<string, Attrs>, t1: map<string, Attrs>, t2: map<string, Attrs>)
    requires TaxonLocksKept(t0, t1) && TaxonLocksKept(t1, t2)
    ensures TaxonLocksKept(t0, t2)
  {
    forall n | n in t0 ensures n in t2 && t0[n].Keys <= t2[n].Keys && LocksKept(t0[n], t2[n]) {
      LocksKeptTrans(t0[n], t1[n], t2[n]);
    }
  }

  lemma AddTaxonKeepsLocks(e: Entity, k: TaxonKey)
    ensures TaxonLocksKept(e.taxon, AddTaxon(e, k).taxon)
    ensures k.name in e.taxon ==> e.taxon[k.name].Keys <= AddTaxon(e, k).taxon[k.name].Keys
  {
    if k.name in e.taxon {
      MergeKeepsLocks(e.taxon[k.name], k.db, Some(k.id), None);
    }
  }

  /** Merging the lines only touches `taxon`, where it keeps every lock and locks nothing. */
  lemma {:induction false} TaxaOfKeepsLocks(e: Entity, lines: seq<Option<TaxonMatch>>)
    ensures TaxaOf(e, lines) == e.(taxon := TaxaOf(e, lines).taxon)
    ensures TaxonLocksKept(e.taxon, TaxaOf(e, lines).taxon)
  {
    if lines != [] {
      var front := lines[..|lines| - 1];
      TaxaOfKeepsLocks(e, front);
      var line := lines[|lines| - 1];
      if line.Some? && KeyTaxon(line.value).Some? {
        AddTaxonKeepsLocks(TaxaOf(e, front), KeyTaxon(line.value).value);
        TaxonLocksKeptTrans(e.taxon, TaxaOf(e, front).taxon, TaxaOf(e, lines).taxon);
      }
    }
  }

  /** Merging more lines never drops a taxon entry. */
  lemma {:induction false} TaxaOfKeysGrow(e: Entity, lines: seq<Option<TaxonMatch>>, j: nat)
    requires j <= |lines|
    ensures TaxaOf(e, lines[..j]).taxon.Keys <= TaxaOf(e, lines).taxon.Keys
    decreases |lines|
  {
    if j < |lines| {
      var front := lines[..|lines| - 1];
      TaxaOfKeysGrow(e, front, j);
      assert front[..j] == lines[..j];
      assert TaxaOf(e, front).taxon.Keys <= TaxaOf(e, lines).taxon.Keys;
    } else {
      assert lines[..j] == lines;
    }
  }

  /** Every line the table can key gets its taxon entry. */
  lemma TaxaOfNames(e: Entity, lines: seq<Option<TaxonMatch>>)
    ensures forall i :: 0 <= i < |lines| && lines[i].Some? && KeyTaxon(lines[i].value).Some? ==>
              KeyTaxon(lines[i].value).value.name in TaxaOf(e, lines).taxon
  {
    forall i | 0 <= i < |lines| && lines[i].Some? && KeyTaxon(lines[i].value).Some?
      ensures KeyTaxon(lines[i].value).value.name in TaxaOf(e, lines).taxon
    {
      var upto := lines[..i + 1];
      assert upto[..|upto| - 1] == lines[..i] && upto[|upto| - 1] == lines[i];
      assert KeyTaxon(lines[i].value).value.name in TaxaOf(e, upto).taxon;
      TaxaOfKeysGrow(e, lines, i + 1);
    }
  }

  /** The facts a queued lookup needs of the entity's entry `name`. */
  ghost predicate QueueTarget(e: Entity, name: string, provider: string) {
    name in e.taxon && provider in e.taxon[name]
    && ("NCBITaxon" in e.taxon[name] ==> !e.taxon[name]["NCBITaxon"].locked)
  }

  /** Merging one more keyed line keeps the target of an earlier lookup. */
  lemma AddTaxonKeepsTarget(e: Entity, k: TaxonKey, name: string, provider: string)
    requires QueueTarget(e, name, provider)
    ensures QueueTarget(AddTaxon(e, k), name, provider)
  {
    if name == k.name {
      MergeKeepsLocks(e.taxon[name], k.db, Some(k.id), None);
    }
  }

  /** Every queued lookup names the entity, a lookup provider and a taxon entry the
      entity has, with a record for that provider, and any NCBITaxon record in that entry is unlocked, so the
      write-back may overwrite it. */
  lemma {:induction false} QueuedOfSound(e: Entity, lines: seq<Option<TaxonMatch>>, key: string, provider: string)
    ensures forall q :: q in QueuedOf(e, lines, key, provider) ==>
              q.key == key && IsLookupProvider(provider) && q.taxonName in TaxaOf(e, lines).taxon
              && provider in TaxaOf(e, lines).taxon[q.taxonName]
              && ("NCBITaxon" in TaxaOf(e, lines).taxon[q.taxonName] ==> !TaxaOf(e, lines).taxon[q.taxonName]["NCBITaxon"].locked)
  {
    if lines != [] {
      var front := lines[..|lines| - 1];
      QueuedOfSound(e, front, key, provider);
      var line := lines[|lines| - 1];
      var prev := TaxaOf(e, front);
      var queue := QueuedOf(e, lines, key, provider);
      if line.Some? && KeyTaxon(line.value).Some? {
        var k := KeyTaxon(line.value).value;
        forall q | q in queue
          ensures q.key == key && IsLookupProvider(provider) && QueueTarget(AddTaxon(prev, k), q.taxonName, provider)
        {
          if q in QueuedOf(e, front, key, provider) {
            assert QueueTarget(prev, q.taxonName, provider);
            AddTaxonKeepsTarget(prev, k, q.taxonName, provider);
          }
        }
      }
    }
  }

  /** Python's `<` on strings: code-point lexicographic order. */
  predicate StrLess(a: string, b: string)
    decreases |a|
  {
    if a == [] then b != []
    else b != [] && (a[0] < b[0] || (a[0] == b[0] && StrLess(a[1..], b[1..])))
  }

  /** `entity['database_id'] > self.owl_test_max_entry` with the cut-off 'Z9999'. */
  predicate BeyondTestCutoff(databaseId: string) {
    StrLess("Z9999", databaseId)
  }

  /** No food source is cut off: every B code sorts before 'Z9999'. */
  lemma FoodSourcesBeforeCutoff(databaseId: string)
    requires databaseId != "" && databaseId[0] == 'B'
    ensures !BeyondTestCutoff(databaseId)
  {
  }

  /** The provider databases whose ids are sent to EOL. */
  predicate IsLookupProvider(db: string) {
    db == "ITIS" || db == "INDEX FUNGORUM"
  }

  /** Whether `getFoodSource` queues the keyed line for an NCBITaxon lookup: a lookup
      provider, no NCBITaxon record yet for that taxon, and within the cut-off. */
  predicate QueuesLookup(e: Entity, k: TaxonKey) {
    !BeyondTestCutoff(e.databaseId) && IsLookupProvider(k.db)
    && "NCBITaxon" !in AddTaxon(e, k).taxon[k.name]
  }

  lemma StrLessIrreflexive(a: string)
    ensures !StrLess(a, a)
  {
    if a != [] {
      StrLessIrreflexive(a[1..]);
    }
  }

  lemma {:induction false} StrLessTrans(a: string, b: string, c: string)
    requires StrLess(a, b) && StrLess(b, c)
    ensures StrLess(a, c)
    decreases |a|
  {
    if a != [] && a[0] == b[0] && b[0] == c[0] {
      StrLessTrans(a[1..], b[1..], c[1..]);
    }
  }

  lemma {:induction false} StrLessTotal(a: string, b: string)
    ensures a == b || StrLess(a, b) || StrLess(b, a)
    decreases |a|
  {
    if a != [] && b != [] && a[0] == b[0] {
      StrLessTotal(a[1..], b[1..]);
      if a[1..] == b[1..] {
        assert a == [a[0]] + a[1..] && b == [b[0]] + b[1..];
      }
    }
  }

  predicate StrictlySorted(s: seq<string>) {
    forall i, j :: 0 <= i < j < |s| ==> StrLess(s[i], s[j])
  }

  /** Inserts x into a strictly sorted list unless it is already there. */
  function Insert(x: string, s: seq<string>): (r: seq<string>)
    requires StrictlySorted(s)
    ensures StrictlySorted(r)
    ensures forall y :: y in r <==> y == x || y in s
    decreases |s|
  {
    if s == [] then [x]
    else if x == s[0] then s
    else if StrLess(x, s[0]) then
      forall j | 0 < j < |s| ensures StrLess(x, s[j]) {
        StrLessTrans(x, s[0], s[j]);
      }
      [x] + s
    else
      StrLessTotal(x, s[0]);
      var t := Insert(x, s[1..]);
      assert forall y :: y in t ==> StrLess(s[0], y) by {
        forall y | y in t ensures StrLess(s[0], y) {
          if y != x {
            var j :| 0 <= j < |s[1..]| && s[1..][j] == y;
            assert s[j + 1] == y;
          }
        }
      }
      [s[0]] + t
  }

  /** `sorted(set(ids))` */
  function SortedDistinct(ids: seq<string>): (r: seq<string>)
    ensures StrictlySorted(r)
    ensures forall y :: y in r <==> y in ids
    decreases |ids|
  {
    if ids == [] then []
    else
      var r := Insert(ids[|ids| - 1], SortedDistinct(ids[..|ids| - 1]));
      assert forall y :: y in ids <==> y in ids[..|ids| - 1] || y == ids[|ids| - 1] by {
        assert ids == ids[..|ids| - 1] + [ids[|ids| - 1]];
      }
      r
  }

  /** A strictly sorted list lists each of its elements once. */
  lemma SortedHasNoDuplicates(s: seq<string>)
    requires StrictlySorted(s)
    ensures forall i, j :: 0 <= i < j < |s| ==> s[i] != s[j]
  {
    forall i, j | 0 <= i < j < |s| ensures s[i] != s[j] {
      StrLessIrreflexive(s[i]);
    }
  }

  // ---------------------------------------------------------------------
  // The EOL lookups, with the HTTP answers given as maps

  function Flatten(batches: seq<seq<string>>): seq<string> {
    if batches == [] then [] else Flatten(batches[..|batches| - 1]) + batches[|batches| - 1]
  }

  /** Requests of at most 100 ids, all but the last one full, none empty. */
  predicate WellBatched(batches: seq<seq<string>>) {
    (forall i :: 0 <= i < |batches| ==> 1 <= |batches[i]| <= 100)
    && forall i :: 0 <= i < |batches| - 1 ==> |batches[i]| == 100
  }

  /** The EOL page ids the provider search answers, in request order (`batch_eol_ids`);
      `search` maps each provider id EOL knows to its page id. */
  function PagesOf(ids: seq<string>, search: map<string, string>): seq<string> {
    if ids == [] then []
    else
      var last := ids[|ids| - 1];
      PagesOf(ids[..|ids| - 1], search) + (if last in search then [search[last]] else [])
  }

  /** `eol_provider_map`: page id to provider id, the later provider id winning. */
  function ProviderOfPage(ids: seq<string>, search: map<string, string>): map<string, string> {
    if ids == [] then map[]
    else
      var last := ids[|ids| - 1];
      var m := ProviderOfPage(ids[..|ids| - 1], search);
      if last in search then m[search[last] := last] else m
  }

  lemma {:induction false} PagesOfElements(ids: seq<string>, search: map<string, string>)
    ensures forall p :: p in PagesOf(ids, search) <==> exists i :: 0 <= i < |ids| && ids[i] in search && search[ids[i]] == p
  {
    if ids != [] {
      var front := ids[..|ids| - 1];
      PagesOfElements(front, search);
      forall p ensures p in PagesOf(ids, search) <==> exists i :: 0 <= i < |ids| && ids[i] in search && search[ids[i]] == p {
        if p in PagesOf(front, search) {
          var i :| 0 <= i < |front| && front[i] in search && search[front[i]] == p;
          assert ids[i] == front[i];
        }
        if exists i :: 0 <= i < |ids| && ids[i] in search && search[ids[i]] == p {
          var i :| 0 <= i < |ids| && ids[i] in search && search[ids[i]] == p;
          if i < |front| {
            assert front[i] == ids[i];
          }
        }
      }
    }
  }

  /** Every page in the map is the page of the provider id it names, and every page
      the search answers is in the map. */
  lemma {:induction false} ProviderOfPageSound(ids: seq<string>, search: map<string, string>)
    ensures forall p :: p in ProviderOfPage(ids, search) ==>
              ProviderOfPage(ids, search)[p] in ids && ProviderOfPage(ids, search)[p] in search
              && search[ProviderOfPage(ids, search)[p]] == p
    ensures forall i :: 0 <= i < |ids| && ids[i] in search ==> search[ids[i]] in ProviderOfPage(ids, search)
  {
    if ids != [] {
      var front := ids[..|ids| - 1];
      ProviderOfPageSound(front, search);
      forall i | 0 <= i < |ids| && ids[i] in search ensures search[ids[i]] in ProviderOfPage(ids, search) {
        if i < |front| {
          assert front[i] == ids[i];
        }
      }
    }
  }

  /** A taxon concept of an EOL page. */
  datatype Concept = Concept(nameAccordingTo: string, sourceIdentifier: string, taxonRank: Option<string>)

  /** An accepted NCBI answer for a provider id: the EOL page, the NCBITaxon id and the
      lowercased rank (empty when EOL gives none). */
  datatype Hit = Hit(page: string, taxonId: string, rank: string)

  const NcbiSource := "NCBI Taxonomy"

  function ConceptRank(c: Concept): string {
    if c.taxonRank.Some? then Lower(c.taxonRank.value) else ""
  }

  /** The NCBI concepts of one page recorded for its provider id, the last one winning. */
  function NcbiOfConcepts(m: map<string, Hit>, provider: string, page: string, cs: seq<Concept>): map<string, Hit> {
    if cs == [] then m
    else
      var c := cs[|cs| - 1];
      var m' := NcbiOfConcepts(m, provider, page, cs[..|cs| - 1]);
      if c.nameAccordingTo == NcbiSource then m'[provider := Hit(page, c.sourceIdentifier, ConceptRank(c))] else m'
  }

  /** `provider_ncbitaxon_map` after the pages are read in order; `concepts` holds the
      `taxonConcepts` of each page EOL answers for. */
  function NcbiOf(pages: seq<string>, providerOfPage: map<string, string>, concepts: map<string, seq<Concept>>): map<string, Hit> {
    if pages == [] then map[]
    else
      var p := pages[|pages| - 1];
      var m := NcbiOf(pages[..|pages| - 1], providerOfPage, concepts);
      if p in providerOfPage && p in concepts then NcbiOfConcepts(m, providerOfPage[p], p, concepts[p]) else m
  }

  /** What a recorded answer is made of. */
  ghost predicate HitFrom(k: string, h: Hit, providerOfPage: map<string, string>, concepts: map<string, seq<Concept>>) {
    h.page in providerOfPage && providerOfPage[h.page] == k && h.page in concepts
    && exists c :: c in concepts[h.page] && c.nameAccordingTo == NcbiSource
                   && c.sourceIdentifier == h.taxonId && ConceptRank(c) == h.rank
  }

  lemma {:induction false} NcbiOfConceptsSound(m: map<string, Hit>, provider: string, page: string, cs: seq<Concept>,
                                               providerOfPage: map<string, string>, concepts: map<string, seq<Concept>>)
    requires page in providerOfPage && providerOfPage[page] == provider && page in concepts
    requires forall c :: c in cs ==> c in concepts[page]
    requires forall k :: k in m ==> HitFrom(k, m[k], providerOfPage, concepts)
    ensures forall k :: k in NcbiOfConcepts(m, provider, page, cs) ==>
              HitFrom(k, NcbiOfConcepts(m, provider, page, cs)[k], providerOfPage, concepts)
    ensures (exists c :: c in cs && c.nameAccordingTo == NcbiSource) ==> provider in NcbiOfConcepts(m, provider, page, cs)
    ensures m.Keys <= NcbiOfConcepts(m, provider, page, cs).Keys
  {
    if cs != [] {
      var c := cs[|cs| - 1];
      NcbiOfConceptsSound(m, provider, page, cs[..|cs| - 1], providerOfPage, concepts);
      if exists d :: d in cs && d.nameAccordingTo == NcbiSource {
        var d :| d in cs && d.nameAccordingTo == NcbiSource;
        if d != c {
          assert d in cs[..|cs| - 1];
        }
      }
    }
  }

  /** Soundness and completeness of the NCBI answers: every recorded answer comes from an
      NCBI concept of the page its provider id was mapped to, and every page that
      reports an NCBI concept gives its provider id an answer. */
  lemma {:induction false} NcbiOfSound(pages: seq<string>, providerOfPage: map<string, string>, concepts: map<string, seq<Concept>>)
    ensures forall k :: k in NcbiOf(pages, providerOfPage, concepts) ==>
              HitFrom(k, NcbiOf(pages, providerOfPage, concepts)[k], providerOfPage, concepts)
    ensures forall i :: (0 <= i < |pages| && pages[i] in providerOfPage && pages[i] in concepts
                         && exists c :: c in concepts[pages[i]] && c.nameAccordingTo == NcbiSource) ==>
              providerOfPage[pages[i]] in NcbiOf(pages, providerOfPage, concepts)
  {
    if pages != [] {
      var front := pages[..|pages| - 1];
      var p := pages[|pages| - 1];
      NcbiOfSound(front, providerOfPage, concepts);
      var m := NcbiOf(front, providerOfPage, concepts);
      if p in providerOfPage && p in concepts {
        NcbiOfConceptsSound(m, providerOfPage[p], p, concepts[p], providerOfPage, concepts);
      }
      forall i | 0 <= i < |pages| && pages[i] in providerOfPage && pages[i] in concepts
                 && (exists c :: c in concepts[pages[i]] && c.nameAccordingTo == NcbiSource)
        ensures providerOfPage[pages[i]] in NcbiOf(pages, providerOfPage, concepts)
      {
        if i < |front| {
          assert front[i] == pages[i];
        }
      }
    }
  }

  /** `ids[0:100]` and `ids[100:]` */
  function FirstHundred(ids: seq<string>): seq<string> {
    if |ids| < 100 then ids else ids[..100]
  }

  function AfterHundred(ids: seq<string>): seq<string> {
    if |ids| < 100 then [] else ids[100..]
  }

  /** The requests sent so far followed by what is left give back the whole list. */
  ghost predicate Batching(requests: seq<seq<string>>, rest: seq<string>, ids: seq<string>) {
    Flatten(requests) + rest == ids && WellBatched(requests)
    && (requests != [] && rest != [] ==> |requests[|requests| - 1]| == 100)
  }

  lemma NextBatch(requests: seq<seq<string>>, rest: seq<string>, ids: seq<string>)
    requires Batching(requests, rest, ids) && rest != []
    ensures Batching(requests + [FirstHundred(rest)], AfterHundred(rest), ids)
    ensures Flatten(requests + [FirstHundred(rest)]) == Flatten(requests) + FirstHundred(rest)
  {
    var r := requests + [FirstHundred(rest)];
    assert r[..|r| - 1] == requests;
    assert FirstHundred(rest) + AfterHundred(rest) == rest;
  }

  /** One provider search request and its answers, read in order. */
  method SearchBatch(done: seq<string>, batch: seq<string>, search: map<string, string>,
                     providerOfPage0: map<string, string>, pages0: seq<string>)
    returns (providerOfPage: map<string, string>, pages: seq<string>)
    requires providerOfPage0 == ProviderOfPage(done, search) && pages0 == PagesOf(done, search)
    ensures providerOfPage == ProviderOfPage(done + batch, search)
    ensures pages == PagesOf(done + batch, search)
  {
    providerOfPage, pages := providerOfPage0, pages0;
    assert done + batch[..0] == done;
    for j := 0 to |batch|
      invariant providerOfPage == ProviderOfPage(done + batch[..j], search)
      invariant pages == PagesOf(done + batch[..j], search)
    {
      assert (done + batch[..j + 1])[..|done| + j] == done + batch[..j];
      var id := batch[j];
      if id in search {
        providerOfPage := providerOfPage[search[id] := id];
        pages := pages + [search[id]];
      }
    }
    assert batch[..|batch|] == batch;
  }

  /** The provider search of `getEOLNCBITaxonData`: the sorted ids are sent in
      consecutive requests of at most 100, and the answers are collected. Batching
      changes nothing: the result is that of reading the whole list at once. */
  method SearchByProvider(ids: seq<string>, search: map<string, string>)
    returns (requests: seq<seq<string>>, providerOfPage: map<string, string>, pages: seq<string>)
    ensures Flatten(requests) == ids && WellBatched(requests)
    ensures providerOfPage == ProviderOfPage(ids, search)
    ensures pages == PagesOf(ids, search)
  {
    var rest := ids;
    requests, providerOfPage, pages := [], map[], [];
    while |rest| > 0
      invariant Batching(requests, rest, ids)
      invariant providerOfPage == ProviderOfPage(Flatten(requests), search)
      invariant pages == PagesOf(Flatten(requests), search)
    {
      var batch := FirstHundred(rest);
      NextBatch(requests, rest, ids);
      providerOfPage, pages := SearchBatch(Flatten(requests), batch, search, providerOfPage, pages);
      rest := AfterHundred(rest);
      requests := requests + [batch];
    }
  }

  /** The concepts of one page answer, the NCBI ones recorded for the page's provider. */
  method ReadConcepts(ncbi0: map<string, Hit>, provider: string, page: string, cs: seq<Concept>)
    returns (ncbi: map<string, Hit>)
    ensures ncbi == NcbiOfConcepts(ncbi0, provider, page, cs)
  {
    ncbi := ncbi0;
    for k := 0 to |cs|
      invariant ncbi == NcbiOfConcepts(ncbi0, provider, page, cs[..k])
    {
      assert cs[..k + 1][..k] == cs[..k];
      if cs[k].nameAccordingTo == NcbiSource {
        ncbi := ncbi[provider := Hit(page, cs[k].sourceIdentifier, ConceptRank(cs[k]))];
      }
    }
    assert cs[..|cs|] == cs;
  }

  /** One page request and its answers, read in order. */
  method ReadBatch(done: seq<string>, batch: seq<string>, providerOfPage: map<string, string>,
                   concepts: map<string, seq<Concept>>, ncbi0: map<string, Hit>)
    returns (ncbi: map<string, Hit>)
    requires ncbi0 == NcbiOf(done, providerOfPage, concepts)
    ensures ncbi == NcbiOf(done + batch, providerOfPage, concepts)
  {
    ncbi := ncbi0;
    assert done + batch[..0] == done;
    for j := 0 to |batch|
      invariant ncbi == NcbiOf(done + batch[..j], providerOfPage, concepts)
    {
      assert (done + batch[..j + 1])[..|done| + j] == done + batch[..j];
      var p := batch[j];
      if p in providerOfPage && p in concepts {
        ncbi := ReadConcepts(ncbi, providerOfPage[p], p, concepts[p]);
      }
    }
    assert batch[..|batch|] == batch;
  }

  /** The page reads of `getEOLNCBITaxonData`: the page ids go out in requests of at
      most 100, and each NCBI concept in an answer is recorded for the page's provider. */
  method ReadPages(pages: seq<string>, providerOfPage: map<string, string>, concepts: map<string, seq<Concept>>)
    returns (requests: seq<seq<string>>, ncbi: map<string, Hit>)
    ensures Flatten(requests) == pages && WellBatched(requests)
    ensures ncbi == NcbiOf(pages, providerOfPage, concepts)
  {
    var rest := pages;
    requests, ncbi := [], map[];
    while |rest| > 0
      invariant Batching(requests, rest, pages)
      invariant ncbi == NcbiOf(Flatten(requests), providerOfPage, concepts)
    {
      var batch := FirstHundred(rest);
      NextBatch(requests, rest, pages);
      ncbi := ReadBatch(Flatten(requests), batch, providerOfPage, concepts, ncbi);
      rest := AfterHundred(rest);
      requests := requests + [batch];
    }
  }

  // ---------------------------------------------------------------------
  // Write-back

  /** The answer is taken when EOL reports no rank or the rank of the taxon key. */
  predicate RankAccepted(taxonName: string, rank: string) {
    rank == "" || SplitOn(taxonName, ":")[0] == rank
  }

  /** The write-back of one queued lookup into its entity. An accepted answer merges
      the NCBITaxon id into the taxon record and the EOL page into `xrefs`; a rank
      mismatch switches off the import of the NCBITaxon and provider records (Python
      stops with a KeyError when either is missing); no answer leaves the marker that
      stops later runs from asking again. */
  function WriteBack(e: Entity, taxonName: string, provider: string, hit: Option<Hit>): (r: Result<Entity>)
    ensures taxonName !in e.taxon ==> r.Err?
    ensures r.Ok? ==> r.value.taxon.Keys == e.taxon.Keys
    ensures r.Ok? ==> forall n :: n in e.taxon && n != taxonName ==> r.value.taxon[n] == e.taxon[n]
    ensures r.Ok? ==> r.value == e.(taxon := r.value.taxon, xrefs := r.value.xrefs)
    ensures r.Ok? ==> "NCBITaxon" in r.value.taxon[taxonName]
    ensures r.Ok? ==> forall n :: n in e.taxon ==> e.taxon[n].Keys <= r.value.taxon[n].Keys
    ensures taxonName in e.taxon && hit.Some? && RankAccepted(taxonName, hit.value.rank) ==>
              r.Ok? && r.value.taxon[taxonName] == SetAttributeDiff(e.taxon[taxonName], "NCBITaxon", Some(hit.value.taxonId), None)
              && r.value.xrefs == SetAttributeDiff(e.xrefs, "EOL", Some(hit.value.page), None)
    ensures taxonName in e.taxon && hit.Some? && !RankAccepted(taxonName, hit.value.rank) ==>
              (r.Ok? <==> "NCBITaxon" in e.taxon[taxonName] && provider in e.taxon[taxonName])
    ensures r.Ok? && hit.Some? && !RankAccepted(taxonName, hit.value.rank) ==>
              r.value.xrefs == e.xrefs
              && r.value.taxon[taxonName].Keys == e.taxon[taxonName].Keys
              && (forall a :: a in e.taxon[taxonName] ==>
                    r.value.taxon[taxonName][a] == e.taxon[taxonName][a].(doImport := if a == "NCBITaxon" || a == provider then false else e.taxon[taxonName][a].doImport))
    ensures taxonName in e.taxon && hit.None? ==>
              r == Ok(e.(taxon := e.taxon[taxonName := e.taxon[taxonName]["NCBITaxon" := NoLookupMarker]]))
  {
    if taxonName !in e.taxon then Err("KeyError: " + taxonName)
    else
      var t := e.taxon[taxonName];
      match hit
      case Some(h) =>
        if RankAccepted(taxonName, h.rank) then
          Ok(e.(taxon := e.taxon[taxonName := SetAttributeDiff(t, "NCBITaxon", Some(h.taxonId), None)],
                xrefs := SetAttributeDiff(e.xrefs, "EOL", Some(h.page), None)))
        else if "NCBITaxon" !in t then Err("KeyError: NCBITaxon")
        else if provider !in t then Err("KeyError: " + provider)
        else
          var t1 := t["NCBITaxon" := t["NCBITaxon"].(doImport := false)];
          Ok(e.(taxon := e.taxon[taxonName := t1[provider := t1[provider].(doImport := false)]]))
      case None =>
        Ok(e.(taxon := e.taxon[taxonName := t["NCBITaxon" := NoLookupMarker]]))
  }

  /** A lookup is asked once: after any write-back, the taxon line that queued it no
      longer queues a lookup on a later run. */
  lemma WriteBackStopsRequeue(e: Entity, k: TaxonKey, provider: string, hit: Option<Hit>)
    requires WriteBack(e, k.name, provider, hit).Ok?
    ensures !QueuesLookup(WriteBack(e, k.name, provider, hit).value, k)
  {
  }

  /** The answer for a line keyed from the LanguaL rank tag is accepted exactly when EOL
      reports no rank or the same NCBI rank. */
  lemma KeyedRankAccepted(m: TaxonMatch, rank: string)
    requires KeyTaxon(m).Some?
    ensures RankAccepted(KeyTaxon(m).value.name, rank) <==> rank == "" || rank == RankTable[m.rank]
  {
    TaxonKeyRank(m);
  }

  /** A mismatching answer suppresses both the NCBITaxon record and the provider record. */
  lemma MismatchSuppresses(e: Entity, taxonName: string, provider: string, h: Hit)
    requires !RankAccepted(taxonName, h.rank)
    requires WriteBack(e, taxonName, provider, Some(h)).Ok?
    ensures var t := WriteBack(e, taxonName, provider, Some(h)).value.taxon[taxonName];
            !TermImport(t, "NCBITaxon") && !TermImport(t, provider)
  {
  }

  /** An answer never overrides a locked NCBITaxon or EOL value. */
  lemma WriteBackKeepsLocks(e: Entity, taxonName: string, provider: string, h: Hit)
    requires WriteBack(e, taxonName, provider, Some(h)).Ok?
    ensures var r := WriteBack(e, taxonName, provider, Some(h)).value;
            ("EOL" in e.xrefs && e.xrefs["EOL"].locked ==> r.xrefs["EOL"].value == e.xrefs["EOL"].value)
            && ("NCBITaxon" in e.taxon[taxonName] && e.taxon[taxonName]["NCBITaxon"].locked ==>
                  r.taxon[taxonName]["NCBITaxon"].value == e.taxon[taxonName]["NCBITaxon"].value)
  {
  }
}
