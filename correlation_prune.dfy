/**
 * Pruning of a precise-code-intel correlation state: documents whose path does not exist in the
 * git clone at the target commit are dropped, and then every definition and reference table
 * forgets the range sets it holds for dropped documents. The state's maps are changed in place.
 */
module CorrelationPrune {
  import opened Wrappers

  /** A DefaultIDSetMap: document ID -> set of range IDs. */
  type IDSetMap = map<int, set<int>>

  /** The parts of the correlation state that pruning reads and changes. */
  class State {
    var documentData: map<int, string>            // document ID -> path
    var definitionData: map<int, IDSetMap>        // result-set ID -> ranges per document
    var referenceData: map<int, IDSetMap>

    constructor (docs: map<int, string>, defs: map<int, IDSetMap>, refs: map<int, IDSetMap>)
      ensures documentData == docs && definitionData == defs && referenceData == refs
    {
      documentData, definitionData, referenceData := docs, defs, refs;
    }
  }

  // ---------------------------------------------------------------------------------------
  // Specification

  /** The documents whose path the checker reports as existing. */
  function KeepExisting(docs: map<int, string>, exists_: string -> bool): map<int, string>
  {
    map id | id in docs && exists_(docs[id]) :: docs[id]
  }

  /** The entries of `ranges` for documents in `keep`. */
  function Restrict(ranges: IDSetMap, keep: set<int>): IDSetMap
  {
    map d | d in ranges && d in keep :: ranges[d]
  }

  /** Every inner map of a definition or reference table restricted to `keep`; outer keys stay. */
  function PruneTable(data: map<int, IDSetMap>, keep: set<int>): map<int, IDSetMap>
  {
    map k | k in data :: Restrict(data[k], keep)
  }

  /** No inner map mentions a document outside `docs`. */
  ghost predicate NoDangling(data: map<int, IDSetMap>, docs: map<int, string>)
  {
    forall k, d :: k in data && d in data[k] ==> d in docs
  }

  lemma KeepExistingSpec(docs: map<int, string>, exists_: string -> bool)
    ensures KeepExisting(docs, exists_).Keys <= docs.Keys
    ensures forall id :: id in KeepExisting(docs, exists_) ==>
      exists_(KeepExisting(docs, exists_)[id]) && KeepExisting(docs, exists_)[id] == docs[id]
    ensures forall id :: id in docs && exists_(docs[id]) ==> id in KeepExisting(docs, exists_)
  {
  }

  /** Pruning keeps the outer keys, keeps surviving documents' range sets, and drops exactly the pruned documents. */
  lemma PruneTableSpec(data: map<int, IDSetMap>, keep: set<int>)
    ensures PruneTable(data, keep).Keys == data.Keys
    ensures forall k :: k in data ==>
      && PruneTable(data, keep)[k].Keys == data[k].Keys * keep
      && forall d :: d in PruneTable(data, keep)[k] ==> PruneTable(data, keep)[k][d] == data[k][d]
  {
  }

  lemma PruneTableIdempotent(data: map<int, IDSetMap>, keep: set<int>)
    ensures PruneTable(PruneTable(data, keep), keep) == PruneTable(data, keep)
  {
    var once := PruneTable(data, keep);
    forall k | k in once
      ensures Restrict(once[k], keep) == once[k]
    {
    }
  }

  /**
   * `paths` lists the path of every document exactly once: `ids` enumerates the documents
   * without repetition, and the i-th path is the path of the i-th document.
   */
  ghost predicate OnePathPerDocument(docs: map<int, string>, paths: seq<string>, ids: seq<int>)
  {
    && |ids| == |paths|
    && (forall id :: id in docs <==> id in ids)
    && (forall i :: 0 <= i < |ids| ==> ids[i] in docs && paths[i] == docs[ids[i]])
    && (forall i, j :: 0 <= i < j < |ids| ==> ids[i] != ids[j])
  }

  // ---------------------------------------------------------------------------------------
  // The operations

  /**
   * The paths of all documents, one per document (duplicates kept), in the map's iteration order,
   * which is left open. The ghost `ids` records which document each path came from.
   */
  method CollectPaths(docs: map<int, string>) returns (paths: seq<string>, ghost ids: seq<int>)
    ensures |paths| == |docs|
    ensures forall p :: p in paths <==> exists id :: id in docs && docs[id] == p
    ensures OnePathPerDocument(docs, paths, ids)
  {
    paths := [];
    ids := [];
    var rest := docs.Keys;
    ghost var done: set<int> := {};
    while rest != {}
      invariant rest <= docs.Keys && done == docs.Keys - rest
      invariant |paths| == |done| == |ids|
      invariant forall id :: id in done <==> id in ids
      invariant forall i :: 0 <= i < |ids| ==> ids[i] in docs && paths[i] == docs[ids[i]]
      invariant forall i, j :: 0 <= i < j < |ids| ==> ids[i] != ids[j]
      decreases rest
    {
      HasMember(rest);
      var id :| id in rest;
      assert id !in ids;
      paths := paths + [docs[id]];
      ids := ids + [id];
      rest := rest - {id};
      done := done + {id};
    }
    assert done == docs.Keys;
    PathsOfDocuments(docs, paths, ids);
  }

  /** Listing every document once lists exactly the documents' paths. */
  lemma PathsOfDocuments(docs: map<int, string>, paths: seq<string>, ids: seq<int>)
    requires OnePathPerDocument(docs, paths, ids)
    ensures forall p :: p in paths <==> exists id :: id in docs && docs[id] == p
  {
    forall p | p in paths
      ensures exists id :: id in docs && docs[id] == p
    {
      var i :| 0 <= i < |paths| && paths[i] == p;
      assert ids[i] in docs && docs[ids[i]] == p;
    }
    forall p | exists id :: id in docs && docs[id] == p
      ensures p in paths
    {
      var id :| id in docs && docs[id] == p;
      var i :| 0 <= i < |ids| && ids[i] == id;
      assert paths[i] == p;
    }
  }

  /** The inner Each/Delete of pruneFromDefinitionReferences on one DefaultIDSetMap. */
  method PruneDocumentRanges(documentData: map<int, string>, documentRanges: IDSetMap) returns (kept: IDSetMap)
    ensures kept.Keys == documentRanges.Keys * documentData.Keys
    ensures forall d :: d in kept ==> kept[d] == documentRanges[d]
    ensures kept == Restrict(documentRanges, documentData.Keys)
  {
    kept := documentRanges;
    var rest := documentRanges.Keys;
    while rest != {}
      invariant rest <= documentRanges.Keys
      invariant kept.Keys == (documentRanges.Keys - rest) * documentData.Keys + rest
      invariant forall d :: d in kept ==> kept[d] == documentRanges[d]
      decreases rest
    {
      HasMember(rest);
      var documentID :| documentID in rest;
      if documentID !in documentData {
        // the document was pruned: remove its ranges
        kept := kept - {documentID};
      }
      rest := rest - {documentID};
    }
  }

  /** pruneFromDefinitionReferences: every inner map loses the documents not in `documentData`. */
  method PruneFromDefinitionReferences(documentData: map<int, string>, data: map<int, IDSetMap>) returns (pruned: map<int, IDSetMap>)
    ensures pruned.Keys == data.Keys
    ensures forall k :: k in data ==> pruned[k].Keys == data[k].Keys * documentData.Keys
    ensures forall k, d :: k in pruned && d in pruned[k] ==> pruned[k][d] == data[k][d]
    ensures pruned == PruneTable(data, documentData.Keys)
  {
    pruned := data;
    var rest := data.Keys;
    while rest != {}
      invariant rest <= data.Keys && pruned.Keys == data.Keys
      invariant forall k :: k in rest ==> pruned[k] == data[k]
      invariant forall k :: k in data && k !in rest ==> pruned[k] == Restrict(data[k], documentData.Keys)
      decreases rest
    {
      HasMember(rest);
      var k :| k in rest;
      var kept := PruneDocumentRanges(documentData, data[k]);
      pruned := pruned[k := kept];
      rest := rest - {k};
    }
    assert pruned.Keys == PruneTable(data, documentData.Keys).Keys;
    assert forall k :: k in pruned ==> pruned[k] == PruneTable(data, documentData.Keys)[k];
  }

  /** The delete loop of prune: drops the documents whose path does not exist. */
  method RemoveMissingDocuments(state: State, exists_: string -> bool)
    modifies state`documentData
    ensures state.documentData == KeepExisting(old(state.documentData), exists_)
  {
    ghost var docs := state.documentData;
    var ids := state.documentData.Keys;
    while ids != {}
      invariant ids <= docs.Keys
      invariant forall id :: id in state.documentData <==>
        id in docs && (id in ids || exists_(docs[id]))
      invariant forall id :: id in state.documentData ==> state.documentData[id] == docs[id]
      decreases ids
    {
      HasMember(ids);
      var documentID :| documentID in ids;
      var uri := state.documentData[documentID];
      if !exists_(uri) {
        // the document does not exist in git
        state.documentData := state.documentData - {documentID};
      }
      ids := ids - {documentID};
    }
    assert forall id :: id in state.documentData <==> id in docs && exists_(docs[id]);
    assert forall id :: id in KeepExisting(docs, exists_) <==> id in docs && exists_(docs[id]);
    assert state.documentData.Keys == KeepExisting(docs, exists_).Keys;
    assert forall id :: id in state.documentData ==> state.documentData[id] == KeepExisting(docs, exists_)[id];
  }

  /**
   * prune: builds the existence checker from the document paths (`newChecker` stands for
   * NewExistenceChecker over the repository root), and if that fails returns its error with the
   * state untouched. Otherwise it keeps exactly the documents whose path exists and prunes both
   * tables against the surviving documents.
   */
  method Prune(state: State, newChecker: seq<string> -> Result<string -> bool, string>) returns (err: Option<string>, ghost paths: seq<string>, ghost ids: seq<int>)
    modifies state
    ensures |paths| == |old(state.documentData)|
    ensures OnePathPerDocument(old(state.documentData), paths, ids)
    ensures forall p :: p in paths <==> exists id :: id in old(state.documentData) && old(state.documentData)[id] == p
    ensures newChecker(paths).Err? ==> err == Some(newChecker(paths).error) && unchanged(state)
    ensures newChecker(paths).Ok? ==>
      && err.None?
      && state.documentData == KeepExisting(old(state.documentData), newChecker(paths).value)
      && state.definitionData == PruneTable(old(state.definitionData), state.documentData.Keys)
      && state.referenceData == PruneTable(old(state.referenceData), state.documentData.Keys)
  {
    var ps;
    ps, ids := CollectPaths(state.documentData);
    paths := ps;
    var checker := newChecker(ps);
    if checker.Err? {
      return Some(checker.error), paths, ids;
    }
    RemoveMissingDocuments(state, checker.value);
    var defs := PruneFromDefinitionReferences(state.documentData, state.definitionData);
    state.definitionData := defs;
    var refs := PruneFromDefinitionReferences(state.documentData, state.referenceData);
    state.referenceData := refs;
    err := None;
  }

  /** After a successful prune every remaining document exists, and no table entry points at a dropped document. */
  lemma PruneLeavesNoDangling(docs: map<int, string>, defs: map<int, IDSetMap>, refs: map<int, IDSetMap>, exists_: string -> bool)
    ensures var kept := KeepExisting(docs, exists_);
      && (forall id :: id in kept ==> exists_(kept[id]))
      && NoDangling(PruneTable(defs, kept.Keys), kept)
      && NoDangling(PruneTable(refs, kept.Keys), kept)
  {
  }
}
