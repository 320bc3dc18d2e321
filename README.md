# FoodOn LanguaL importer and taxon utilities: a verified model

This project models, in Dafny, the core of FoodOn's LanguaL import pipeline and its companion scripts. It covers:

- **The differential term database of the LanguaL importer** (`langual.py`). Each LanguaL descriptor is reconciled against a stored index of entities. An entity holds a status, an ontology id, ordered `is_a` parents, xrefs, synonyms, taxa and plain attributes. Every attribute is a record `{value, import, locked, changed, language}` merged by `set_attribute_diff`. A locked attribute keeps its value whatever the import file says. The per-descriptor loop of `__main__` is modelled in full, including these parts:
  - new entities start as drafts;
  - one `is_a` entry is added per broader term, and the first entry is the "already processed" sentinel;
  - the `LANGUAL` self-xref is written;
  - status only ever moves to `deprecated`;
  - `ignore` entities stop all merging;
  - the ontology id is assigned once;
  - synonyms and E/INS codes are loaded.
- **The taxon keying of `getFoodSource`**, and the batching and write-back of `getEOLNCBITaxonData`: sorted distinct provider ids are consumed in slices of 100, and the NCBI answers are written back with their rank check.
- **The lookup-table override of ontology ids** and the reverse label lookup.
- **The subset generator** (`subset.py`): the row filter, the deterministic subset id, reference resolution (skips, junk labels, `X added` replaced by `X`), the facet-letter relation table, label and definition formatting, the index merge and the reverse label lookup.
- **The three OWL rewrite scripts**:
  - `util_obsoletion_update.py` redirects references to deprecated classes;
  - `util_taxon_conversion.py` turns leaf `in taxon` classes into their taxa, deprecates the old class and de-duplicates synonyms;
  - `taxon_transform.py` is the earlier, unguarded form of that conversion.
- **`gaz_conversion.py`**: the Ancestro-to-GAZ URI replace-all and label splice.

## Modules

| module | file | what it models |
|---|---|---|
| `Wrappers` | `wrappers.dfy` | `Option` and `Result`. A Python exception that the source does not catch becomes an `Err`/failure outcome carrying the exception's name. |
| `PyStr` | `pystr.dfy` | The Python string operations the scripts rely on: `find` (returns -1 on a miss and accepts a negative start), slicing with negative bounds, `replace`, `split`, `join`, `strip`, `split()` on whitespace, ASCII `lower`, and decimal formatting with zero padding. |
| `AttributeStore` | `attribute_store.dfy` | `set_attribute_diff`, `term_import`, and the text branch of `load_attribute`. |
| `OntologyIds` | `ontology_ids.dfy` | `get_ontology_id`. |
| `Ancestry` | `ancestry.dfy` | `itemAncestor`, a FIFO walk with a `tried` list. The code is identical in `langual.py` and `subset.py`. |
| `Store` | `store.dfy` | The entity record, parent values, and the reverse label lookup of `makeLableLookup`/`get_database_JSON`. |
| `Reconcile` | `reconcile.dfy` | Per-entity steps of the loop (new entity, broader term, review of status, `load_synonyms`) and the `Evolves` relation they all preserve. |
| `TaxonLookup` | `taxon_lookup.dfy` | Taxon keying, sorted distinct ids, 100-id batches, page and NCBI maps, and the write-back of one answer. |
| `LangualImporter` | `langual_importer.dfy` | The importer's index invariants, the ontology-id override, and the write-back over the whole queue. |
| `LangualRun` | `langual_run.dfy` | The `__main__` loop as the function `Processed`/`ProcessedAll`, and the `Importer` class whose methods update the index, key order, ontology index, reverse lookup and lookup queue in place. |
| `Subset` | `subset.dfy` | `subset.py`, with the `SubsetGenerator` class holding the merged index, reverse lookup, per-facet counts and id offset. |
| `ObsoletionUpdate` | `obsoletion_update.dfy` | `util_obsoletion_update.py` over an `array` of elements. |
| `OwlClasses` | `owl_classes.dfy` | The OWL class record shared by the two taxon scripts (children with their tags, labels, xrefs and subclass restrictions) and the edits made to them. |
| `TaxonConversion` | `taxon_conversion.dfy` | `util_taxon_conversion.py` over an `array` of classes. |
| `TaxonTransform` | `taxon_transform.dfy` | `taxon_transform.py` over an `array` of classes. |
| `GazConversion` | `gaz_conversion.dfy` | `gaz_conversion.py`. |

### Behaviour of the code that the model keeps

- **Rank mismatch in the write-back.** The code (`langual.py:1073-1075`) assigns `['import']` on both the `NCBITaxon` and the provider record, so it raises `KeyError` when either record is missing. `TaxonLookup.WriteBack` returns `Err` in exactly that case.
- **Only the last provider is looked up.** The batching (`langual.py:1017-1055`) sits after the `for eol_provider` loop. Only the ids queued under the last provider are searched, but the write-back runs over every provider's queue. `LangualRun.Importer.EolLookups` models it as written.
- **Missing labels in the gaz rewrite.** When a class has no `<rdfs:label` after its start, `find` returns -1. That is below the class end, so the splice still happens, with `endLabel = find(..., -1) + 13`. `GazConversion.NoLabelSplice` states what the text then becomes.
- **The break that replaces `<DICTION>`.** `load_attribute` replaces `<DICTION>` with the raw string `r'\n\n'`, that is backslash, `n`, backslash, `n`, not two newlines. `AttributeStore.DictionBreak` is that four-character string.
- **Synonyms with no text.** A `<SYNONYM>` without text makes `synxml.text[0:4]` raise `TypeError`. This stops the whole run (`LangualRun.FinishedSynonyms`).

## Model

| member | source | states |
|---|---|---|
| AttributeStore.SetAttributeDiff | src/ontology/imports/langual/langual.py:458-483 | No key is removed and only the named key changes. A new key gets `{value, import, unlocked, changed}` with the language only if one is given. For an existing key, `changed` is exactly "the candidate differs". The import and lock flags never change. A locked record keeps its value and language. An unlocked one takes the candidate, and takes the language only when it differs and a language is given. |
| AttributeStore.MergeEqualIsNoop | src/ontology/imports/langual/langual.py:482-483 | Merging the value already stored only clears `changed`; the language is not compared. |
| AttributeStore.MergeTwice | src/ontology/imports/langual/langual.py:474-481 | Repeating a merge changes nothing more, except that `changed` stays set exactly when the record is locked and differs from the candidate. |
| AttributeStore.LockedSurvivesMerges | src/ontology/imports/langual/langual.py:474-481 | A locked record keeps its value, language and lock through any sequence of merges. |
| AttributeStore.MergesKeepKeys | src/ontology/imports/langual/langual.py:458-483 | After any sequence of merges, every old key and every merged key is present. |
| AttributeStore.MergeKeepsLocks | src/ontology/imports/langual/langual.py:458-483 | One merge keeps every existing key, lock and locked value. |
| AttributeStore.TermImportAfterMerge | src/ontology/imports/langual/langual.py:781-785 | A freshly merged key is emitted. An unlocked existing key is emitted exactly when its import flag was set. |
| AttributeStore.MarkerNotImported | src/ontology/imports/langual/langual.py:1077-1084 | The "no lookup result" marker record is never emitted by `term_import`. |
| AttributeStore.LoadAttributeText | src/ontology/imports/langual/langual.py:424-437 | A result exists exactly when the tag occurs in the text. For the one-line tags (MANSFELD, GRIN, ITIS) the result holds no newline. |
| AttributeStore.LoadAttributeTextNoDiction | src/ontology/imports/langual/langual.py:429-433 | The value of a multi-line tag never contains `<DICTION>`: every occurrence is replaced, and the replacement cannot recreate one. |
| AttributeStore.LoadAttributeTextRoundTrip | src/ontology/imports/langual/langual.py:424-437 | A stripped, single-line value without `<DICTION>`, written after the first occurrence of its tag, is read back exactly. |
| AttributeStore.LoadAttributeTextInto | src/ontology/imports/langual/langual.py:424-451 | A missing tag leaves the record untouched. Otherwise the found text is merged with `set_attribute_diff`. |
| OntologyIds.LetterIndex | src/ontology/imports/langual/langual.py:408 | Returns the position of the letter in `ABCEFGHJKMNPRZ` (its first occurrence), or -1 exactly when the letter is absent, in which case `index` raises. |
| OntologyIds.GetOntologyId | src/ontology/imports/langual/langual.py:401-409 | Succeeds exactly for `00000` or an id starting with a facet letter. A result always starts with `FOODON_03`. |
| OntologyIds.RootId | src/ontology/imports/langual/langual.py:405-406 | `00000` maps to `FOODON_03400000`. |
| OntologyIds.LangualCodeId | src/ontology/imports/langual/langual.py:407-409 | A letter plus 4 digits maps to `FOODON_` plus 8 digits whose value is 3400000 + 10000 × letter index + code, ending in the code's digits. |
| OntologyIds.LangualCodesInjective | src/ontology/imports/langual/langual.py:401-409 | Distinct letter-plus-4-digit codes get distinct ontology ids. |
| OntologyIds.FirstCodeMeetsRoot | src/ontology/imports/langual/langual.py:401-409 | `A0000` collides with the reserved root id of `00000`. |
| Ancestry.ItemAncestor | src/ontology/imports/langual/langual.py:335-350 | Terminates on any `is_a` data, cycles included. Returns true exactly when some node reachable from the item through stored parent values (the item included) has a parent value in `ancestors`. The subset generator's copy (subset.py:354-369) is the same walk with the same result. |
| Store.ParentGraph | src/ontology/imports/langual/langual.py:343-346 | The graph the walk reads: for every index key, the values of its `is_a` records in insertion order. |
| Store.LabelKey | src/ontology/imports/langual/langual.py:331 | A reverse-lookup key exists exactly when the entity has a label value. The key is that value, lowercased. |
| Store.BuildLabelReverseLookup | src/ontology/imports/langual/langual.py:324-332 | Every key it enters maps to an eligible entity with that lowercased label: a B entity or C0228 descendant that is neither deprecated nor ignored. Every eligible entity is reachable through its label. When several eligible entities share a lowercased label, the last one in index order is entered. Failure (`KeyError` on a missing label) happens exactly when some eligible entity has no label. The result is `LabelLookup`, the visit in index order that stops at the first unlabelled eligible entity. The subset generator's copy (subset.py:346-351) has the same last-wins rule. |
| Reconcile.NewEntity | src/ontology/imports/langual/langual.py:162-191 | A new entity is a draft with no ontology id, parents, xrefs, synonyms or taxa, holding only an `active` record that is not imported. |
| Reconcile.AddParent | src/ontology/imports/langual/langual.py:196-203 | The parent is merged under its ontology id with the database id as value. A new key joins the end of the `is_a` order, and nothing else changes. |
| Reconcile.FirstParentSentinel | src/ontology/imports/langual/langual.py:205-212 | After adding a parent, the first `is_a` value is the new parent when there was none or when an unlocked first entry was overwritten. Otherwise it is unchanged. |
| Reconcile.ParentRecorded | src/ontology/imports/langual/langual.py:196-203 | The parent key is present, old keys and order are kept, and an absent or unlocked parent record holds the given parent id. |
| Reconcile.Review | src/ontology/imports/langual/langual.py:217-226 | Ignored and deprecated entities are untouched. Otherwise `active` is merged, and the status becomes deprecated exactly when ACTIVE is `False` or SN contains "DO NOT USE for new indexing". |
| Reconcile.ReviewsOnlyDowngrade | src/ontology/imports/langual/langual.py:217-226 | Over any number of reviews, `ignore` and `deprecated` stay, and any other status either stays or becomes deprecated. |
| Reconcile.LoadedSynonymsFail | src/ontology/imports/langual/langual.py:494 | Loading succeeds exactly when every SYNONYM has text; otherwise the slice raises `TypeError`. |
| Reconcile.LoadedSynonymsKept | src/ontology/imports/langual/langual.py:489-513 | Every plain synonym is present with the empty value unless locked. An unlocked one is English, except that a record already holding the empty value keeps its language. Synonyms not among the texts are untouched. `xrefs["Codex:"]` (resp. `"Europe:"`) holds the code of the last `INS ` (resp. `E `) text unless that record is locked, and is untouched when there is no such text. Only those two keys are added, only the popped `Codex:<text>`/`Europe:<text>` keys are removed, every other xref is untouched, and no lock is broken. |
| Reconcile.LoadSynonyms | src/ontology/imports/langual/langual.py:489-513 | The loop succeeds exactly when the functional definition does, and then returns the same xrefs and synonyms. |
| Reconcile.PoppedKeysPoppable | src/ontology/imports/langual/langual.py:497-506 | Every key removed from the xrefs starts with `Codex:` or `Europe:` and is never the merge target itself. |
| Reconcile.EvolvesTrans | src/ontology/imports/langual/langual.py:152-271 | The "database only grows" relation composes. That relation means: database id kept; status only downgraded; ontology id set at most once; keys of `is_a`, synonyms, taxa and other attributes kept; locks and locked values kept. |
| Reconcile.ParentEvolves | src/ontology/imports/langual/langual.py:196-203 | Adding a parent keeps the invariant above. |
| Reconcile.ReviewEvolves | src/ontology/imports/langual/langual.py:217-226 | Reviewing status keeps it. |
| Reconcile.TaxaOfEvolves | src/ontology/imports/langual/langual.py:926-940 | Adding food-source taxa keeps it. |
| Reconcile.WriteBackEvolves | src/ontology/imports/langual/langual.py:1060-1084 | A successful write-back of an NCBI answer keeps it. |
| Reconcile.SynonymsEvolve | src/ontology/imports/langual/langual.py:489-513 | Loading synonyms keeps it. |
| TaxonLookup.RankLookup | src/ontology/imports/langual/langual.py:97 | Defined exactly on the tags of the rank table, and always yields one of its ranks. |
| TaxonLookup.RanksHaveNoColon | src/ontology/imports/langual/langual.py:97 | No rank contains `:`, so the rank can be recovered from a taxon key. |
| TaxonLookup.KeyTaxon | src/ontology/imports/langual/langual.py:909-924 | A match is keyed exactly when its tag is in the rank table (never DICTION). The key is `rank:name`. The provider is the `db` group with its id, or the `ref` group with id `''`. |
| TaxonLookup.TaxonKeyRank | src/ontology/imports/langual/langual.py:1067 | The rank the write-back splits off a taxon key (the part before the first `:`) is the rank the key was built with at line 915. |
| TaxonLookup.AddTaxon | src/ontology/imports/langual/langual.py:926-940 | Only the keyed taxon changes: its provider record is merged with the provider id. |
| TaxonLookup.TaxaOfKeepsLocks | src/ontology/imports/langual/langual.py:940 | Adding all matched taxa changes nothing but the taxa, and keeps every taxon key, lock and locked value. |
| TaxonLookup.TaxaOfNames | src/ontology/imports/langual/langual.py:926-940 | Every keyed match ends up as a taxon of the entity. |
| TaxonLookup.QueuedOfSound | src/ontology/imports/langual/langual.py:946-952 | Every queued lookup names this entity, a lookup provider (ITIS or INDEX FUNGORUM), and an existing taxon holding that provider whose NCBITaxon record, if any, is unlocked. |
| TaxonLookup.FoodSourcesBeforeCutoff | src/ontology/imports/langual/langual.py:942-943 | Every B (food source) id is below the test cut-off `Z9999` (set at line 90), so the cut-off never skips a food source. |
| TaxonLookup.StrLessTrans | src/ontology/imports/langual/langual.py:1020 | The string order used by `sorted` is transitive. |
| TaxonLookup.StrLessTotal | src/ontology/imports/langual/langual.py:1020 | The string order used by `sorted` is total. |
| TaxonLookup.Insert | src/ontology/imports/langual/langual.py:1020 | Inserting into a strictly sorted list keeps it strictly sorted and adds exactly the new element. |
| TaxonLookup.SortedDistinct | src/ontology/imports/langual/langual.py:1020 | `sorted(set(ids))` is strictly sorted and holds exactly the elements of `ids`. |
| TaxonLookup.SortedHasNoDuplicates | src/ontology/imports/langual/langual.py:1020 | A strictly sorted list has no duplicates. |
| TaxonLookup.PagesOfElements | src/ontology/imports/langual/langual.py:1027-1035 | The page list holds exactly the EOL pages found for the searched provider ids. |
| TaxonLookup.ProviderOfPageSound | src/ontology/imports/langual/langual.py:1033 | Every page maps back to a searched provider id that found it, and every found page is mapped. |
| TaxonLookup.NcbiOfConceptsSound | src/ontology/imports/langual/langual.py:1042-1055 | Each recorded answer comes from an NCBI concept of that page; a page with an NCBI concept is answered. |
| TaxonLookup.NcbiOfSound | src/ontology/imports/langual/langual.py:1038-1055 | Over all pages, every answer comes from an NCBI concept of a page of that provider id, and every provider whose page lists an NCBI concept is answered. |
| TaxonLookup.NextBatch | src/ontology/imports/langual/langual.py:1022-1025 | Taking the next slice of at most 100 keeps the batches concatenating to the consumed prefix of the id list. |
| TaxonLookup.SearchByProvider | src/ontology/imports/langual/langual.py:1022-1035 | The request batches concatenate to exactly the id list, each of 1 to 100 ids. The page list and the page-to-provider map are the ones defined from all ids. |
| TaxonLookup.ReadPages | src/ontology/imports/langual/langual.py:1038-1055 | The page batches concatenate to exactly the page list, each of 1 to 100 pages. The NCBI answers are the ones defined from all pages. |
| TaxonLookup.WriteBack | src/ontology/imports/langual/langual.py:1060-1084 | A missing taxon is a `KeyError`. An answer with an accepted rank merges `NCBITaxon` and `xrefs['EOL']`. A mismatched answer clears the import flag of `NCBITaxon` and the provider, and fails exactly when one of them is absent. No answer leaves the "never retry" marker. No other taxon changes. |
| TaxonLookup.WriteBackStopsRequeue | src/ontology/imports/langual/langual.py:946-952 | A successful write-back (lines 1060-1084) leaves an `NCBITaxon` record, and a taxon that has one is never queued for lookup again. |
| TaxonLookup.KeyedRankAccepted | src/ontology/imports/langual/langual.py:1067 | A rank is accepted exactly when it is empty or equals the rank the taxon was keyed under. |
| TaxonLookup.MismatchSuppresses | src/ontology/imports/langual/langual.py:1073-1075 | After a mismatch, neither the NCBITaxon nor the provider record is emitted. |
| TaxonLookup.WriteBackKeepsLocks | src/ontology/imports/langual/langual.py:1067-1071 | A locked EOL xref or locked NCBITaxon record keeps its value. |
| LangualImporter.ParentOntologyId | src/ontology/imports/langual/langual.py:198-201 | A known parent yields its stored ontology id (`KeyError` when it has none). An unknown parent yields `get_ontology_id` of its code. |
| LangualImporter.ReplaceOntologyId | src/ontology/imports/langual/langual.py:313-319 | The new id maps to the database id and the old id is dropped. When they are equal, the pop removes the new entry too. Every other entry is kept. |
| LangualImporter.OverrideKeepsOthers | src/ontology/imports/langual/langual.py:308-319 | An ontology-index entry that no overridden entity touches is left as it was. |
| LangualImporter.OverrideFindsLast | src/ontology/imports/langual/langual.py:308-319 | After the loop, the last overridden entity's new id maps to it and its old id is gone (or both are gone when they coincide). |
| LangualImporter.OverrideIds | src/ontology/imports/langual/langual.py:308-319 | The loop fails (`KeyError` on `ontology_id`) exactly when an entity in the lookup has no ontology id. Otherwise the index is retargeted and the ontology index is the one the ordered replacements define. |
| LangualImporter.RetargetedKeysAll | src/ontology/imports/langual/langual.py:308-319 | Retargeting every key in order gives the retargeted index, which differs from the old one only in ontology ids. |
| LangualImporter.Tagged | src/ontology/imports/langual/langual.py:1060-1061 | Each queued entry is paired with its provider, in order. |
| LangualImporter.PendingOfElements | src/ontology/imports/langual/langual.py:1060-1061 | The write-back visits exactly the entries of the providers' queues. |
| LangualImporter.WrittenBackErrPrefix | src/ontology/imports/langual/langual.py:1060-1084 | Once a write-back step fails, the rest of the queue changes nothing (the exception ends the run). |
| LangualImporter.WriteBackFailsOnMismatch | src/ontology/imports/langual/langual.py:1073-1075 | For a validly queued entry, a write-back step fails only on a rank mismatch. |
| LangualImporter.WriteBackStep | src/ontology/imports/langual/langual.py:1060-1084 | A successful step keeps the "database only grows" invariant and the parent order, and leaves the taxon with an NCBITaxon record. |
| LangualImporter.WrittenBackSound | src/ontology/imports/langual/langual.py:1060-1084 | The whole write-back either succeeds, leaving every queued taxon with an NCBITaxon record and the database only grown, or fails on some rank mismatch. |
| LangualRun.Labelled | src/ontology/imports/langual/langual.py:253-256 | Only the plain attributes (label and comment) change. |
| LangualRun.GetFoodSource | src/ontology/imports/langual/langual.py:898-959 | The loop adds exactly the taxa of the matched lines, in order, and appends exactly the defined lookups to the queue. |
| LangualRun.Parented | src/ontology/imports/langual/langual.py:196-203 | The result keeps the parent order well formed, and a record with a broader term has at least one parent. |
| LangualRun.ProcessedSound | src/ontology/imports/langual/langual.py:152-271 | Processing one descriptor keeps the database invariants and only grows the database. |
| LangualRun.FinishedTermKeeps | src/ontology/imports/langual/langual.py:267-271 | Facet and synonym loading leave id, status, ontology id and parents unchanged. |
| LangualRun.FinishedSynonyms | src/ontology/imports/langual/langual.py:267-271 | The record completes exactly when every synonym has text, and then every plain synonym is present. Otherwise it fails with `TypeError`. |
| LangualRun.IdentifiedOutcome | src/ontology/imports/langual/langual.py:263-265 | An identified record is retired exactly when it is deprecated; otherwise it completes or fails. |
| LangualRun.ReviewedKeeps | src/ontology/imports/langual/langual.py:215-226 | The `LANGUAL` self-xref is always written, an ignored entity stays ignored, and the status becomes deprecated exactly under the retirement conditions. |
| LangualRun.ReconciledIgnored | src/ontology/imports/langual/langual.py:238-239 | Merging stops exactly for ignored entities, after the self-xref is written. |
| LangualRun.ReconciledIdentified | src/ontology/imports/langual/langual.py:244-250 | A retired or completed record has an ontology id recorded in the ontology index. The id is the old one when present, and otherwise the one derived from its code. |
| LangualRun.ReconciledRetired | src/ontology/imports/langual/langual.py:217-271 | A record is retired only when it was deprecated already, is inactive, or its scope note says "DO NOT USE for new indexing"; a retired record is deprecated, does no more work and queues nothing. A completed record meets none of these conditions, keeps its status and goes on to load all its plain synonyms. |
| LangualRun.ProcessedCases | src/ontology/imports/langual/langual.py:152-271 | The loop body admits the entity, adds the broader term, stops at a later parent when the sentinel differs, and otherwise reconciles. |
| LangualRun.ProcessedSkipped | src/ontology/imports/langual/langual.py:155-160 | A record is skipped exactly when its category belongs to the other run. An FTC without text raises `TypeError`. Skipped and failing records leave the database unchanged. |
| LangualRun.ProcessedFrame | src/ontology/imports/langual/langual.py:152-271 | A processed record changes at most its own entity, appends at most its own key, and may update the ontology index and queue. |
| LangualRun.ProcessedParent | src/ontology/imports/langual/langual.py:196-203 | Every record with a broader term that gets past the parent step has that parent recorded under its ontology id with its database id as value (unless locked). Old parents are kept. |
| LangualRun.ProcessedSentinel | src/ontology/imports/langual/langual.py:205-212 | Whenever a record is fully processed, its first `is_a` value is its broader term. |
| LangualRun.ProcessedLaterParent | src/ontology/imports/langual/langual.py:205-212 | A later occurrence of a multi-homed term only adds its parent and keeps the first parent. |
| LangualRun.ProcessedIgnored | src/ontology/imports/langual/langual.py:217-239 | An ignored entity is never retired or completed. It keeps its status, ontology id, attributes, synonyms and taxa, and changes neither the ontology index nor the queue. |
| LangualRun.ProcessedIdentified | src/ontology/imports/langual/langual.py:244-250 | The ontology id is assigned once and recorded in the ontology index. |
| LangualRun.ProcessedRetired | src/ontology/imports/langual/langual.py:217-271 | A record is retired only under the retirement conditions (lines 217-226) and is then deprecated; retirement stops the facet work and queues nothing. A completed record meets none of the conditions, is a draft or import entity, and has all its plain synonyms loaded. |
| LangualRun.ProcessedStatus | src/ontology/imports/langual/langual.py:162-226 | A new entity (lines 162-167) ends as a draft or deprecated, keyed by its own code. The status only moves to deprecated. |
| LangualRun.ProcessedAll | src/ontology/imports/langual/langual.py:152-271 | Running the loop over all descriptors keeps the database invariants and only grows the database. |
| LangualRun.ProcessedAllAppend | src/ontology/imports/langual/langual.py:152-271 | The loop over two lists is the loop over the first, then over the second unless the first raised. |
| LangualRun.ProcessedAllNeedsFtc | src/ontology/imports/langual/langual.py:155 | A descriptor without FTC text aborts the run. |
| LangualRun.ProcessedAllOtherRun | src/ontology/imports/langual/langual.py:157-160 | Descriptors of the other run's categories leave the database unchanged. |
| LangualRun.ProcessedAllFrame | src/ontology/imports/langual/langual.py:152-271 | Only entities keyed by processed descriptors change, and the key order only grows by them. |
| LangualRun.ProviderIds | src/ontology/imports/langual/langual.py:1018-1019 | Lists the provider id of each queued entry, in order. |
| LangualRun.PendingKeys | src/ontology/imports/langual/langual.py:1060-1084 | Every queued entry names an indexed entity with a valid lookup. |
| LangualRun.NcbiTaxonDataSound | src/ontology/imports/langual/langual.py:1060-1084 | A successful taxon-data step keeps the database invariants, only grows the database, and answers every queued lookup. |
| LangualRun.NcbiTaxonDataFails | src/ontology/imports/langual/langual.py:1073-1075 | The step fails only on a rank mismatch of some queued lookup. |
| LangualRun.WriteBackAll | src/ontology/imports/langual/langual.py:1060-1084 | The loop yields exactly the defined write-back, or its failure. |
| LangualRun.Importer.constructor | src/ontology/imports/langual/langual.py:72-101 | An importer starts with the loaded index, empty ontology index and reverse lookup, and empty ITIS and INDEX FUNGORUM queues. |
| LangualRun.Importer.UpdateDatabaseOntologyIds | src/ontology/imports/langual/langual.py:291-321 | The new state and failure are exactly `Updated`: the override fails with `KeyError` when an entity in the lookup has no ontology id, and otherwise retargets the index and updates the ontology index in order; then the label lookup fails when an eligible entity has no label. The reverse lookup gains `LabelLookup`'s entries, and on success every eligible entity is reachable by its label. |
| LangualRun.Importer.OverrideOntologyIds | src/ontology/imports/langual/langual.py:308-319 | The same override loop, with the index unchanged on failure. |
| LangualRun.Importer.MakeLabelLookup | src/ontology/imports/langual/langual.py:324-332 | The reverse lookup gains exactly the entries of `LabelLookup` over the index in order. On success every eligible entity's label is a key whose entry is the last eligible entity in index order with that label. Failure happens only when an eligible entity has no label. |
| LangualRun.Importer.Import | src/ontology/imports/langual/langual.py:144-276 | The new index, order, ontology index and queue, and the failure, are exactly `Imported` of the old ones: the override and label lookup, then the descriptor loop, then in the main run the NCBITaxon write-back. The reverse lookup gains the entries of the label lookup. A whole run keeps the database invariants, and when it succeeds as the `langual_import` run, every queued taxon lookup is answered. |
| LangualRun.Importer.Complete | src/ontology/imports/langual/langual.py:152-276 | The state and failure after the descriptor loop and, in the main run, the write-back are exactly `FinishedRun`; on success of the main run every queued lookup is answered. |
| LangualRun.Importer.ProcessAll | src/ontology/imports/langual/langual.py:152-271 | The loop over descriptors leaves exactly the state and outcome of `ProcessedAll`. |
| LangualRun.Importer.GetEOLNCBITaxonData | src/ontology/imports/langual/langual.py:963-1084 | Search and page batches partition the sorted distinct ids of the last provider and its pages. The index becomes the written-back index, or is unchanged with the failure reported. |
| LangualRun.Importer.EolLookups | src/ontology/imports/langual/langual.py:1017-1055 | The batches cover exactly the last provider's sorted distinct ids and their pages, and the answers are the defined NCBI map. |
| LangualRun.Importer.WriteBackQueue | src/ontology/imports/langual/langual.py:1060-1061 | The pending list is every provider's queue, in provider order. |
| LangualRun.Importer.ProcessDescriptor | src/ontology/imports/langual/langual.py:152-271 | One loop iteration leaves exactly the state and outcome of `Processed`. |
| LangualRun.Importer.AdmitTerm | src/ontology/imports/langual/langual.py:176-191 | A known key keeps its entity; a new key gets a new draft entity appended to the order. |
| LangualRun.Importer.AddBroaderTerm | src/ontology/imports/langual/langual.py:196-203 | Returns the entity with its broader term added, or the `KeyError` of a parent without ontology id. |
| LangualRun.Importer.Reconcile | src/ontology/imports/langual/langual.py:215-250 | Leaves exactly the state and outcome of `Reconciled`. |
| LangualRun.Importer.Identify | src/ontology/imports/langual/langual.py:244-265 | Leaves exactly the state and outcome of `Identified`. |
| LangualRun.Importer.Finish | src/ontology/imports/langual/langual.py:267-271 | Leaves exactly the state and outcome of `Finished`. |
| Subset.SubsetIdFails | src/ontology/imports/langual_subsets/subset.py:287-293 | `get_new_subset_id` raises exactly when the id's digits are all zeros or absent. |
| Subset.SubsetIdShape | src/ontology/imports/langual_subsets/subset.py:287-293 | The id is `FOODON_` plus at least 8 digits whose value is the offset plus the id's digits. |
| Subset.SubsetIdCollides | src/ontology/imports/langual_subsets/subset.py:287-293 | Ids with the same digit value get the same subset id. |
| Subset.SubsetIdDistinct | src/ontology/imports/langual_subsets/subset.py:287-293 | Ids with different digit values get different subset ids. |
| Subset.AcceptRow | src/ontology/imports/langual_subsets/subset.py:100-115 | An accepted row has a non-empty id other than `FOODID`, a non-empty label, and a non-empty list of whitespace-free codes. |
| Subset.AcceptRowOfFields | src/ontology/imports/langual_subsets/subset.py:100-115 | A well-formed 4-field line is accepted with its id, its stripped and lowercased label, and its codes split on whitespace. |
| Subset.AcceptRowRejects | src/ontology/imports/langual_subsets/subset.py:101-102 | A line without exactly 4 tab fields, or starting with `FOODID`, is rejected. |
| Subset.Resolve | src/ontology/imports/langual_subsets/subset.py:134-155 | A resolved reference keeps the code and its facet letter. |
| Subset.ResolveSkips | src/ontology/imports/langual_subsets/subset.py:134-155 | Missing codes and ignored entities are skipped. A labelled entity is skipped exactly when it is a deprecated junk entry (`no …`, `… not known`, `… not applicable`) that cannot be replaced. |
| Subset.ResolveTarget | src/ontology/imports/langual_subsets/subset.py:147-165 | A deprecated `X added` whose base is in the reverse lookup resolves to that entity's ontology id. A live entity resolves to its own. |
| Subset.ResolveFails | src/ontology/imports/langual_subsets/subset.py:134-155 | Resolution raises only for a missing label, a missing ontology id, a deprecated entity without database id, or a replacement target without ontology id. A missing label always raises. |
| Subset.FacetRelation | src/ontology/imports/langual_subsets/subset.py:165-219 | Every relation is a non-empty IRI. |
| Subset.FacetRelationDomain | src/ontology/imports/langual_subsets/subset.py:165-219 | A relation exists exactly for the facet letters other than A, excluding K0003. |
| Subset.FacetRelationTreatment | src/ontology/imports/langual_subsets/subset.py:191-196 | An H reference gets `FOODON_00001560` exactly when its label ends in ` added`, and `RO_0002354` otherwise. |
| Subset.LastAWins | src/ontology/imports/langual_subsets/subset.py:171 | The parent is set exactly when an A reference occurs, and is the last one. |
| Subset.RestrictionsFromCodes | src/ontology/imports/langual_subsets/subset.py:165-228 | A restriction is emitted exactly when some resolved reference has that relation and ontology id. |
| Subset.BumpedCounts | src/ontology/imports/langual_subsets/subset.py:157-162 | Each facet count grows by the number of resolved references of that letter. |
| Subset.EscapedNoBrackets | src/ontology/imports/langual_subsets/subset.py:237 | The escaped label holds no `<` or `>`. |
| Subset.FormatLabelSplit | src/ontology/imports/langual_subsets/subset.py:237-249 | A label with a comma becomes `head (rest)` with definition `head: rest`, with the head lowercased. |
| Subset.FormatLabelWhole | src/ontology/imports/langual_subsets/subset.py:250-256 | A label without a comma gets ` (food product)` exactly when the language holds `en` and the label lacks `product`. The definition equals the label. |
| Subset.RenderedClass | src/ontology/imports/langual_subsets/subset.py:124-280 | A rendered class carries the given id and import id, and rendering fails exactly when a reference fails to resolve. |
| Subset.AcceptedRowsAppend | src/ontology/imports/langual_subsets/subset.py:97-115 | Row acceptance is line by line. |
| Subset.RowClass | src/ontology/imports/langual_subsets/subset.py:112-113 | A row renders exactly when its subset id and all its references succeed, and the class carries that id. |
| Subset.LineClass | src/ontology/imports/langual_subsets/subset.py:100-115 | A line yields nothing exactly when the row filter rejects it. |
| Subset.GeneratedRows | src/ontology/imports/langual_subsets/subset.py:97-115 | A successful run yields one class per accepted row, in order, with that row's subset id and import id. |
| Subset.GeneratedSucceeds | src/ontology/imports/langual_subsets/subset.py:97-115 | The run succeeds exactly when every accepted row has a valid subset id and resolvable references. |
| Subset.Appended | src/ontology/imports/langual_subsets/subset.py:340-341 | The new key order starts with the old order. |
| Subset.AppendedOrder | src/ontology/imports/langual_subsets/subset.py:340-341 | The merged `OrderedDict` order starts with the old order, lists every key of either index, and lists none twice. |
| Subset.MergeIndex | src/ontology/imports/langual_subsets/subset.py:340-341 | The merged index is the main index overridden by the Product Type index, with the combined key order. |
| Subset.SubsetGenerator.constructor | src/ontology/imports/langual_subsets/subset.py:73-82 | A generator starts with an empty index, reverse lookup and counts. |
| Subset.SubsetGenerator.Load | src/ontology/imports/langual_subsets/subset.py:328-351 | The index is the merged index. On success every eligible entity is reachable by its lowercased label, and a label shared by several eligible entities maps to the last one in index order. On failure some eligible entity has no label. |
| Subset.SubsetGenerator.Generate | src/ontology/imports/langual_subsets/subset.py:97-115 | The line loop returns the defined classes and adds every rendered reference to the facet counts, or stops with the first error. |
| Subset.SubsetGenerator.GenerateLine | src/ontology/imports/langual_subsets/subset.py:100-115 | One line is skipped, rendered, or fails, as defined. |
| Subset.SubsetGenerator.RenderRow | src/ontology/imports/langual_subsets/subset.py:112-113 | The subset id, then the rendered class, as defined. |
| Subset.SubsetGenerator.SubsetEntryRender | src/ontology/imports/langual_subsets/subset.py:124-280 | The rendered class is the defined one, and the counts are bumped by its references. |
| Subset.SubsetGenerator.RenderFacets | src/ontology/imports/langual_subsets/subset.py:130-219 | The loop yields the last A parent and the restrictions of the resolved references, or the first resolution error. |
| ObsoletionUpdate.ResourceLookupFirst | src/ontology/util_obsoletion_update.py:64-74 | A target is indexed exactly when some element references it, and the index holds the first such element. |
| ObsoletionUpdate.ResourceLookupInRange | src/ontology/util_obsoletion_update.py:64-74 | Every indexed position is an element of the document. |
| ObsoletionUpdate.BuildResourceLookup | src/ontology/util_obsoletion_update.py:61-74 | The loop over the elements builds exactly the defined lookup. |
| ObsoletionUpdate.ReplacedIri | src/ontology/util_obsoletion_update.py:88-94 | The replacement is the non-empty text if present, else the `rdf:resource`. It fails (`KeyError`) exactly when neither exists. |
| ObsoletionUpdate.PlannedStops | src/ontology/util_obsoletion_update.py:79-109 | After a failure, later classes change nothing. |
| ObsoletionUpdate.PlannedFailure | src/ontology/util_obsoletion_update.py:79-109 | A failed run keeps the rewrites and count reached before the failing class. |
| ObsoletionUpdate.PlannedRewrites | src/ontology/util_obsoletion_update.py:101-108 | An element is rewritten exactly when some deprecated class with a replacement is the target it was first indexed under. |
| ObsoletionUpdate.PlannedLastWins | src/ontology/util_obsoletion_update.py:101-108 | A rewritten element holds the replacement of the last class that redirects it. |
| ObsoletionUpdate.PlannedCount | src/ontology/util_obsoletion_update.py:109-114 | The count is positive exactly when something was rewritten. |
| ObsoletionUpdate.ChainNotFollowed | src/ontology/util_obsoletion_update.py:61-109 | A reference to A, where A is replaced by B and B by C, ends at B: chains are not followed. |
| ObsoletionUpdate.UpdateReferences | src/ontology/util_obsoletion_update.py:61-114 | The elements, count and failure are the planned ones, and the file is written exactly when nothing failed and the count is positive. |
| ObsoletionUpdate.ApplyClass | src/ontology/util_obsoletion_update.py:79-109 | One deprecated class updates the elements and count as defined. |
| OwlClasses.FindChild | src/ontology/util_taxon_conversion.py:135-146 | Returns the first matching child, or none when no child matches. |
| OwlClasses.LabelText | src/ontology/util_taxon_conversion.py:148 | A result exists exactly when the class has an English label child, and it is that child's text, which is none for an empty element (Python's `label.text` is `None`). |
| OwlClasses.LabelTextConcat | src/ontology/util_taxon_conversion.py:148 | The first English label of a concatenation is the first part's, if it has one. |
| OwlClasses.RelabelledCounts | src/ontology/util_taxon_conversion.py:155-158 | The label child is replaced by an alternative term with the same text, and nothing else changes. |
| OwlClasses.WithoutXrefCounts | src/ontology/util_taxon_conversion.py:162-165 | At most one xref to the taxon is removed, and nothing else. |
| OwlClasses.WithoutXrefKeepsLabel | src/ontology/util_taxon_conversion.py:162-165 | Removing the xref keeps the label. |
| OwlClasses.WithoutNodeCounts | src/ontology/util_taxon_conversion.py:173 | Removing the `subClassOf` element removes exactly that one child. |
| OwlClasses.SubClassesOf | src/ontology/util_taxon_conversion.py:134 | Lists exactly the `subClassOf` children. |
| OwlClasses.FirstResource | src/ontology/taxon_transform.py:52-55 | A taxon is found exactly when some `someValuesFrom` has a resource, and is one of them. |
| TaxonConversion.ParentsNamed | src/ontology/util_taxon_conversion.py:111-114 | An IRI is a parent exactly when some class has a `subClassOf` resource naming it. |
| TaxonConversion.BuildParents | src/ontology/util_taxon_conversion.py:111-114 | The loop builds exactly the set of parents. |
| TaxonConversion.ConvertedOnly | src/ontology/util_taxon_conversion.py:123-153 | A non-candidate class (not FOODON, or not a leaf), a consumer class, or a class without an `in taxon` restriction with a resource is left as it is. |
| TaxonConversion.ConversionStep | src/ontology/util_taxon_conversion.py:155-178 | A conversion needs an `in taxon` restriction with a resource and a non-consumer label. It appends one deprecation record (old about, `obsolete: ` label, taxon), counts once, sets about to the taxon, and edits exactly the label, xref and `subClassOf` children. |
| TaxonConversion.ConvertedChildren | src/ontology/util_taxon_conversion.py:155-173 | The children after conversion are the old ones with the label turned into an alternative term, at most the taxon xref removed, and the `subClassOf` removed. |
| TaxonConversion.ConvertAllRecords | src/ontology/util_taxon_conversion.py:176-178 | Every counted conversion calls `deprecate_term` once: the number of deprecation records equals the count. |
| TaxonConversion.ConvertAllStops | src/ontology/util_taxon_conversion.py:123-181 | After a failure, later classes are left as they were. |
| TaxonConversion.WithoutRepeatsCounts | src/ontology/util_taxon_conversion.py:186-201 | Exactly the synonym and alternative-term children whose text equals the label case-insensitively are removed; every other child keeps its multiplicity. |
| TaxonConversion.WithoutRepeatsKeepsLabel | src/ontology/util_taxon_conversion.py:186-201 | De-duplication keeps the label. |
| TaxonConversion.Deduplicate | src/ontology/util_taxon_conversion.py:186-201 | De-duplicating a class fails (`AttributeError` on `.lower()`) exactly when its English label is empty. Otherwise no repeat of the label remains, and de-duplicating twice changes nothing more. |
| TaxonConversion.EmptyLabelStops | src/ontology/util_taxon_conversion.py:148-151 | A step on an 'in taxon' restriction that names a taxon, in a class whose English label is empty, stops the first pass with `AttributeError` on `.find`, before any edit to the class. |
| TaxonConversion.DeduplicatedAllFails | src/ontology/util_taxon_conversion.py:186-201 | The second pass stops with `AttributeError` at the first class whose English label is empty: the classes before it are de-duplicated, it and the later ones are unchanged. It succeeds exactly when no class has an empty English label. |
| TaxonConversion.DeduplicatedAllFailure | src/ontology/util_taxon_conversion.py:187-189 | The second pass fails exactly when some class has an empty English label. |
| TaxonConversion.DeduplicatedAllBefore | src/ontology/util_taxon_conversion.py:186-201 | Every class before the first empty label is de-duplicated. |
| TaxonConversion.DeduplicatedAllAfter | src/ontology/util_taxon_conversion.py:186-189 | The class with the first empty label and every later class are unchanged. |
| TaxonConversion.DeduplicatedAllStops | src/ontology/util_taxon_conversion.py:186-189 | Once the second pass has failed, the later classes are left as they are. |
| TaxonConversion.WithoutRepeatsAgain | src/ontology/util_taxon_conversion.py:186-201 | A class without repeats is left as it is. |
| TaxonConversion.ConvertTaxa | src/ontology/util_taxon_conversion.py:111-211 | The deprecation records and count are those of the defined first pass. If the first pass fails, its classes and failure are the result. Otherwise the classes and failure are those of the second pass over its classes, which can still fail on an empty label. The files are written exactly when nothing failed and the count is positive. |
| TaxonConversion.FirstPass | src/ontology/util_taxon_conversion.py:123-181 | The loop over classes gives exactly the defined conversion. |
| TaxonConversion.SecondPass | src/ontology/util_taxon_conversion.py:186-201 | The loop leaves exactly the classes and failure of `DeduplicatedAll`: every class de-duplicated in order up to the first empty English label. |
| TaxonConversion.DeduplicateAt | src/ontology/util_taxon_conversion.py:186-201 | Only the given class changes, and it is de-duplicated, or it is unchanged and the failure of an empty label is returned. |
| TaxonConversion.ConvertClassAt | src/ontology/util_taxon_conversion.py:123-181 | Only the given class changes, as one class conversion defines. |
| TaxonTransform.TransformedOnly | src/ontology/taxon_transform.py:42-55 | A class without about fails (`KeyError`). A non-FOODON class, or a class without an `in taxon` restriction with a resource, is left as it is. There is no leaf or consumer check. |
| TaxonTransform.TransformStepEffect | src/ontology/taxon_transform.py:58-91 | A transformation appends one obsolete record, counts once, sets about to the taxon, and edits exactly the xref, label and `subClassOf` children. |
| TaxonTransform.TransformedChildren | src/ontology/taxon_transform.py:58-74 | The children after transformation are the old ones with at most the taxon xref removed, the label turned into an alternative term, and the `subClassOf` removed. |
| TaxonTransform.TransformWithoutLabel | src/ontology/taxon_transform.py:64-84 | A step on an 'in taxon' restriction that names a taxon, in a class without an English label, fails and adds no count and no record. The failure is the `IndexError` of `label[0]` when the subClassOf is still a child, and the `ValueError` of `remove` when an earlier restriction of the same subClassOf already removed it. |
| TaxonTransform.TransformEmptyLabel | src/ontology/taxon_transform.py:64-84 | A class whose English label is empty gets its edits: the label becomes an alternative term without text, about is set to the taxon and the `subClassOf` is removed. Then building the obsolete label fails with `TypeError`, and nothing is counted or recorded. |
| TaxonTransform.TransformAllRecords | src/ontology/taxon_transform.py:77-91 | Exactly one obsolete record is appended per counted transformation. |
| TaxonTransform.TransformAllStops | src/ontology/taxon_transform.py:42-91 | After a failure, later classes are left as they were. |
| TaxonTransform.TransformTaxa | src/ontology/taxon_transform.py:42-102 | The classes, records, count and failure are the defined ones, and the file is written exactly when nothing failed. |
| TaxonTransform.TransformClassAt | src/ontology/taxon_transform.py:42-91 | Only the given class changes, as one class transformation defines. |
| GazConversion.ParseLineParts | src/ontology/imports/crossreference/ancestro/gaz_conversion.py:38 | A line parses exactly when its stripped form has exactly one tab, and the two parts join back to it. |
| GazConversion.ParseLineRoundTrip | src/ontology/imports/crossreference/ancestro/gaz_conversion.py:38 | A line written from a search and replace id parses back to them. |
| GazConversion.RenamedCutsAndGlues | src/ontology/imports/crossreference/ancestro/gaz_conversion.py:39-41 | Every quoted Ancestro URI is replaced by the quoted OBO URI and nothing else changes. Text without the quoted URI is unchanged. |
| GazConversion.LabelKept | src/ontology/imports/crossreference/ancestro/gaz_conversion.py:45-53 | The text is unchanged when the class is absent or its first label lies beyond the class end. |
| GazConversion.LabelCut | src/ontology/imports/crossreference/ancestro/gaz_conversion.py:45-53 | Otherwise exactly the first label span after the class start, through its closing tag, is cut out. |
| GazConversion.NoLabelSplice | src/ontology/imports/crossreference/ancestro/gaz_conversion.py:50-53 | With the class present but no label after it, the -1 of `find` splices the text into its prefix without the last character followed by its suffix from position 12. |
| GazConversion.ConvertedAppend | src/ontology/imports/crossreference/ancestro/gaz_conversion.py:36-41 | Lookup lines apply cumulatively in file order, and the first malformed line ends the run. |
| GazConversion.ConvertAncestro | src/ontology/imports/crossreference/ancestro/gaz_conversion.py:36-55 | The loop yields exactly the defined conversion of the ontology text. |
| GazConversion.ApplyLine | src/ontology/imports/crossreference/ancestro/gaz_conversion.py:38-53 | One line parses, renames and splices as defined. |

## Left out

- OWL and RDF text output is not modelled: `save_ontology_owl`, the `item_*` helpers, the OntoFox spec writers, the string assembly in `subset_entry_render` and `save_subset_owl`. The model stops at the data they render (the `SubsetClass` record and the restriction list).
- HTTP is not modelled: `get_jsonparsed_data` and the EOL calls. Their answers are parameters, given as maps from provider id to page id and from page id to concepts.
- XML, JSON and file I/O are not modelled: `ET.parse`, `json.load`/`dump`, reading `lookup.txt` and the subset and conversion tables, writing output files. Lookup tables are given as maps or lines. A file write is the returned `write` flag, and output paths such as `.bak.owl` are not modelled.
- Regular expressions are not modelled. `re_taxonomy` matches are given as `TaxonMatch` groups. `processEntityAI` is not modelled: its regex mining of definition, definition source, replaced-by and the ITIS/GRIN/MANSFELD xrefs has no counterpart in the model.
- Process plumbing is not modelled: command-line handling, `robot reduce` via `os.system`, `print`, the report and the counters (`food_additive`, `no_taxonomy`), and the database version counter.
- `get_language_tag` and the OWL language attributes are not modelled.
- `subset_basic.py` is not part of this model; it does not parse as Python.
- `PyStr.Lower` lowercases ASCII letters only, not full Unicode `lower()`.
- `LangualRun.Importer.EolLookups` searches only the last provider's ids, as the code does. The model does not say what the authors may have meant.
- `TaxonConversion.SecondPass` merges the three tag loops (`hasSynonym`, `hasExactSynonym`, `IAO_0000118`) into one filter. The result is the same because each loop removes only its own tag.
- Element identity in the OWL scripts is a `node` number on each `subClassOf` child. Removal by identity in `list.remove` is modelled as removal of the child with that number.
- A failed run is modelled as a failure outcome together with the state the source leaves behind. The half-finished edits of the failing item are kept in `TaxonConversion` (a class already renamed to its taxon and stripped of the converted `subClassOf` when the deprecation record needs a label that is missing), in `TaxonTransform` (the edits made before the `IndexError` or `TypeError` of taxon_transform.py:84), and in `LangualRun` (the admitted entity and its reviewed status when a lookup fails). Where nothing catches the exception and nothing is written afterwards, the model reports the state from before the failing loop instead. The paths that do not keep the half-finished edits are listed one per line below, together with `Subset.SubsetGenerator.Generate` (its own line further down).
- LangualRun.Updated: on the override's `KeyError` the model keeps the database from before the override. In the source the loop over the index (langual.py:308-314) has already retargeted the entities before the failing one, and has entered the failing entity's new id in the ontology index, when `entity['ontology_id']` raises. `LangualRun.Importer.OverrideOntologyIds` and `LangualRun.Importer.Import` follow it.
- LangualRun.FinishedRun: on a rank mismatch the model keeps the index from before the write-back. In the source the write-back loop (langual.py:1060-1075) has already merged the NCBITaxon and EOL records of the earlier queue entries when it raises. `LangualRun.Importer.GetEOLNCBITaxonData` and `LangualRun.Importer.Complete` follow it.
- GazConversion.Converted: a bad lookup line yields the error alone, without the text that the earlier lines had produced. The script raises before its final write (gaz_conversion.py:38, 55-56), so that text never leaves the script. `GazConversion.ConvertAncestro` follows it.
- LangualRun.Finished: when a SYNONYM element has no text, the model keeps the term's facet details but not the synonyms and xrefs that `load_synonyms` had added before that element (langual.py:489-513).
- Reconcile.Descriptor: every `DESCRIPTOR` is assumed to carry its FTC, ACTIVE, BT, SN, TERM and AI elements. An empty element is `None`, but a missing element cannot be represented, so the source's `AttributeError` on `.find(...).text` of an absent element (langual.py:155, 196, 224, 231, 254) is not modelled.
- `LangualRun.Processed` treats an FTC that is `None` and one that is an empty string alike: both raise when `[0]` is taken.
- `TaxonConversion.ConvertTaxa`: the alternative terms that the first pass creates carry a literal (non-Clark) tag, which ElementTree's namespaced search does not find. The model keeps this with a `parsed` flag, so the second pass skips them.
- Subset.SubsetGenerator.Generate: on failure the facet counts are left unspecified. The source has already bumped the failing reference's facet when it raises on a missing ontology id, and the model does not track that partial update.
- Subset.SubsetGenerator.SubsetEntryRender: on failure the facet counts are left unspecified, for the same reason.
