/**
 * The pure part of the changeset rewirer: the index maps built from the loaded changesets,
 * the operation chosen for each new changeset spec, the sweep over unclaimed changesets,
 * and the whole plan, as functions of the loaded associations. The imperative methods in
 * module ChangesetRewirer are proved to compute exactly these functions.
 */
module RewirerPlan {
  import opened Wrappers
  import opened CampaignTypes
  import opened CampaignStore

  datatype RepoHeadRef = RepoHeadRef(repo: int, headRef: string)

  datatype RepoExternalID = RepoExternalID(repo: int, externalID: string)

  datatype RewireOperationKind =
    | OpNone | OpCreate | OpUpdate | OpReenqueue | OpClose
    | OpUnlink | OpDelete | OpTrack | OpAttachTracked

  /** The string value of each operation kind. */
  function KindName(k: RewireOperationKind): string
  {
    match k
    case OpNone => "none"
    case OpCreate => "create"
    case OpUpdate => "update"
    case OpReenqueue => "reenqueue"
    case OpClose => "close"
    case OpUnlink => "unlink"
    case OpDelete => "delete"
    case OpTrack => "track"
    case OpAttachTracked => "attach-tracked"
  }

  /** One step of a plan; absent fields are the source's nil pointers. */
  datatype RewireOperation = RewireOperation(
    changeset: Option<Changeset>,
    spec: Option<ChangesetSpec>,
    repo: Option<Repo>,
    op: RewireOperationKind)

  /** The fields each kind of operation carries when the planner builds it. */
  predicate WellFormed(o: RewireOperation)
  {
    match o.op
    case OpNone | OpUpdate | OpReenqueue | OpAttachTracked =>
      o.changeset.Some? && o.spec.Some? && o.repo.Some?
    case OpCreate | OpTrack =>
      o.changeset.None? && o.spec.Some? && o.repo.Some?
    case OpClose | OpUnlink | OpDelete =>
      o.changeset.Some? && o.spec.None? && o.repo.None?
  }

  datatype GetChangesetOpts = GetChangesetOpts(repoID: int, externalID: string, externalServiceType: string)

  datatype RewireError =
    | RepoNotFound(repoID: int)         // the repository is not accessible
    | RepoUnsupported(reason: string)   // checkRepoSupported failed
    | StoreErr(cause: StoreError)       // a store call failed
    | IndexOutOfRangePanic              // more current specs than changesets (pairing by position)
    | NilSpecPanic                      // a changeset without a paired current spec needs its head ref

  /**
   * The collaborators whose code is not part of this model, taken as opaque values:
   * git.EnsureRefPrefix, checkRepoSupported (Some(message) on failure),
   * ChangesetSpecDescription.IsImportingExisting, Changeset.Published, Changeset.ResetQueued,
   * Changeset.RemoveCampaignID, ChangesetSpec.DiffStat, and the answers of the two store
   * queries the planner issues (GetChangeset and ListChangesetSpecs by IDs).
   */
  datatype Env = Env(
    ensureRefPrefix: string -> string,
    checkRepoSupported: Repo -> Option<string>,
    isImportingExisting: ChangesetSpecDescription -> bool,
    published: Changeset -> bool,
    resetQueued: Changeset -> Changeset,
    removeCampaignID: (Changeset, int) -> Changeset,
    specDiffStat: ChangesetSpec -> DiffStat,
    getChangeset: GetChangesetOpts -> Result<Changeset, StoreError>,
    listChangesetSpecsByIDs: seq<int> -> Result<seq<ChangesetSpec>, StoreError>)

  datatype Indexes = Indexes(
    byHeadRef: map<RepoHeadRef, Changeset>,
    byExternalID: map<RepoExternalID, Changeset>,
    currentSpecs: map<int, ChangesetSpec>)

  // ---------------------------------------------------------------------------------------
  // Indexing

  /** The non-zero current spec IDs of `cs`, in order: the IDs the index step asks the store for. */
  function CurrentSpecIDs(cs: seq<Changeset>): seq<int>
  {
    if cs == [] then []
    else
      var ids := CurrentSpecIDs(cs[..|cs| - 1]);
      if cs[|cs| - 1].currentSpecID != 0 then ids + [cs[|cs| - 1].currentSpecID] else ids
  }

  /** The i-th returned spec is recorded as the current spec of the i-th changeset. */
  function PairSpecs(cs: seq<Changeset>, specs: seq<ChangesetSpec>): map<int, ChangesetSpec>
    requires |specs| <= |cs|
  {
    if specs == [] then map[]
    else PairSpecs(cs, specs[..|specs| - 1])[cs[|specs| - 1].id := specs[|specs| - 1]]
  }

  function ExternalKey(c: Changeset): RepoExternalID
  {
    RepoExternalID(c.repoID, c.externalID)
  }

  /** Every changeset with an external ID, by (repo, external ID); a later changeset overwrites an earlier one. */
  function ExternalIDIndex(cs: seq<Changeset>): map<RepoExternalID, Changeset>
  {
    if cs == [] then map[]
    else
      var m := ExternalIDIndex(cs[..|cs| - 1]);
      var c := cs[|cs| - 1];
      if c.externalID != "" then m[ExternalKey(c) := c] else m
  }

  datatype HeadRefEntry = NotIndexed | IndexedAt(key: RepoHeadRef) | SpecMissing

  /** Where the head-ref index puts `c`, given the paired current specs. */
  function HeadRefEntryOf(prefix: string -> string, current: map<int, ChangesetSpec>, c: Changeset): HeadRefEntry
  {
    if c.externalID != "" && c.currentSpecID == 0 then NotIndexed
    else if c.externalBranch != "" then IndexedAt(RepoHeadRef(c.repoID, prefix(c.externalBranch)))
    else if c.currentSpecID != 0 then
      if c.id in current then IndexedAt(RepoHeadRef(c.repoID, prefix(current[c.id].spec.headRef)))
      else SpecMissing
    else NotIndexed
  }

  function HeadRefIndex(prefix: string -> string, current: map<int, ChangesetSpec>, cs: seq<Changeset>): map<RepoHeadRef, Changeset>
  {
    if cs == [] then map[]
    else
      var m := HeadRefIndex(prefix, current, cs[..|cs| - 1]);
      var c := cs[|cs| - 1];
      match HeadRefEntryOf(prefix, current, c)
      case IndexedAt(k) => m[k := c]
      case _ => m
  }

  predicate SomeSpecMissing(prefix: string -> string, current: map<int, ChangesetSpec>, cs: seq<Changeset>)
  {
    exists i :: 0 <= i < |cs| && HeadRefEntryOf(prefix, current, cs[i]).SpecMissing?
  }

  /** What indexAssociations builds, or why it stops. */
  function IndexSpec(env: Env, cs: seq<Changeset>): Result<Indexes, RewireError>
  {
    match env.listChangesetSpecsByIDs(CurrentSpecIDs(cs))
    case Err(e) => Err(StoreErr(e))
    case Ok(specs) =>
      if |specs| > |cs| then Err(IndexOutOfRangePanic)
      else
        var current := PairSpecs(cs, specs);
        if SomeSpecMissing(env.ensureRefPrefix, current, cs) then Err(NilSpecPanic)
        else Ok(Indexes(HeadRefIndex(env.ensureRefPrefix, current, cs), ExternalIDIndex(cs), current))
  }

  // ---------------------------------------------------------------------------------------
  // Planning

  /** The operation the planner emits for one new spec, or the error that aborts planning. */
  function SpecOp(env: Env, idx: Indexes, repos: map<int, Repo>, spec: ChangesetSpec): Result<RewireOperation, RewireError>
  {
    if spec.repoID !in repos then Err(RepoNotFound(spec.repoID))
    else
      var repo := repos[spec.repoID];
      if env.checkRepoSupported(repo).Some? then Err(RepoUnsupported(env.checkRepoSupported(repo).value))
      else if env.isImportingExisting(spec.spec) then
        var k := RepoExternalID(spec.repoID, spec.spec.externalID);
        if k in idx.byExternalID then
          var c := idx.byExternalID[k];
          Ok(RewireOperation(Some(c), Some(spec), Some(repo),
                             if c.reconcilerState == Errored then OpReenqueue else OpNone))
        else
          match env.getChangeset(GetChangesetOpts(repo.id, k.externalID, repo.serviceType))
          case Ok(existing) => Ok(RewireOperation(Some(existing), Some(spec), Some(repo), OpAttachTracked))
          case Err(ErrNoResults) => Ok(RewireOperation(None, Some(spec), Some(repo), OpTrack))
          case Err(e) => Err(StoreErr(e))
      else
        var k := RepoHeadRef(spec.repoID, env.ensureRefPrefix(spec.spec.headRef));
        if k in idx.byHeadRef then Ok(RewireOperation(Some(idx.byHeadRef[k]), Some(spec), Some(repo), OpUpdate))
        else Ok(RewireOperation(None, Some(spec), Some(repo), OpCreate))
  }

  /** The operations for the specs in order; the first error aborts. */
  function SpecOps(env: Env, idx: Indexes, repos: map<int, Repo>, specs: seq<ChangesetSpec>): Result<seq<RewireOperation>, RewireError>
  {
    if specs == [] then Ok([])
    else
      match SpecOps(env, idx, repos, specs[..|specs| - 1])
      case Err(e) => Err(e)
      case Ok(ops) =>
        match SpecOp(env, idx, repos, specs[|specs| - 1])
        case Err(e) => Err(e)
        case Ok(o) => Ok(ops + [o])
  }

  /** Operations that mark their changeset as attached. */
  predicate Claims(o: RewireOperation)
  {
    o.op in {OpNone, OpReenqueue, OpUpdate, OpAttachTracked} && o.changeset.Some?
  }

  /** The IDs the planner marks as attached while walking the specs. */
  function Claimed(ops: seq<RewireOperation>): set<int>
  {
    if ops == [] then {}
    else
      var o := ops[|ops| - 1];
      Claimed(ops[..|ops| - 1]) + (if Claims(o) then {o.changeset.value.id} else {})
  }

  /** The operation the sweep emits for a loaded changeset, if any. */
  function SweepOp(env: Env, campaignID: int, repos: map<int, Repo>, claimed: set<int>, c: Changeset): Option<RewireOperation>
  {
    if c.id in claimed || c.repoID !in repos then None
    else if c.currentSpecID != 0 && c.ownedByCampaignID == campaignID then
      Some(RewireOperation(Some(c), None, None, if env.published(c) then OpClose else OpDelete))
    else Some(RewireOperation(Some(c), None, None, OpUnlink))
  }

  function SweepOps(env: Env, campaignID: int, repos: map<int, Repo>, claimed: set<int>, cs: seq<Changeset>): seq<RewireOperation>
  {
    if cs == [] then []
    else
      var ops := SweepOps(env, campaignID, repos, claimed, cs[..|cs| - 1]);
      match SweepOp(env, campaignID, repos, claimed, cs[|cs| - 1])
      case Some(o) => ops + [o]
      case None => ops
  }

  /** The plan for campaign `campaignID`, given what loadAssociations returned. */
  function PlanSpec(env: Env, campaignID: int, cs: seq<Changeset>, specs: seq<ChangesetSpec>, repos: map<int, Repo>): Result<seq<RewireOperation>, RewireError>
  {
    match IndexSpec(env, cs)
    case Err(e) => Err(e)
    case Ok(idx) =>
      match SpecOps(env, idx, repos, specs)
      case Err(e) => Err(e)
      case Ok(ops) => Ok(ops + SweepOps(env, campaignID, repos, Claimed(ops), cs))
  }

  // ---------------------------------------------------------------------------------------
  // Plan rendering (rewirerPlan.String)

  function KindNames(ops: seq<RewireOperation>): (names: seq<string>)
    ensures |names| == |ops|
  {
    if ops == [] then [] else KindNames(ops[..|ops| - 1]) + [KindName(ops[|ops| - 1].op)]
  }

  /** strings.Join */
  function Join(ss: seq<string>, sep: string): string
  {
    if ss == [] then ""
    else if |ss| == 1 then ss[0]
    else ss[0] + sep + Join(ss[1..], sep)
  }

  /** The operation kinds of a plan, in order. */
  function Kinds(ops: seq<RewireOperation>): (ks: seq<RewireOperationKind>)
    ensures |ks| == |ops| && forall i :: 0 <= i < |ops| ==> ks[i] == ops[i].op
  {
    if ops == [] then [] else [ops[0].op] + Kinds(ops[1..])
  }

  function KindOfName(name: string): Option<RewireOperationKind>
  {
    if name == "none" then Some(OpNone)
    else if name == "create" then Some(OpCreate)
    else if name == "update" then Some(OpUpdate)
    else if name == "reenqueue" then Some(OpReenqueue)
    else if name == "close" then Some(OpClose)
    else if name == "unlink" then Some(OpUnlink)
    else if name == "delete" then Some(OpDelete)
    else if name == "track" then Some(OpTrack)
    else if name == "attach-tracked" then Some(OpAttachTracked)
    else None
  }

  /** `s` cut at every comma. */
  function SplitCommas(s: string): (parts: seq<string>)
    ensures |parts| >= 1
  {
    if s == [] then [""]
    else
      var rest := SplitCommas(s[1..]);
      if s[0] == ',' then [""] + rest else [[s[0]] + rest[0]] + rest[1..]
  }

  /** The parts after the first, each prefixed by the space of the ", " separator. */
  function SpacePrefixed(ss: seq<string>): seq<string>
  {
    if ss == [] then [] else [" " + ss[0]] + SpacePrefixed(ss[1..])
  }

  function ParseSpaced(parts: seq<string>): Option<seq<RewireOperationKind>>
  {
    if parts == [] then Some([])
    else if |parts[0]| == 0 || parts[0][0] != ' ' then None
    else match (KindOfName(parts[0][1..]), ParseSpaced(parts[1..]))
      case (Some(k), Some(ks)) => Some([k] + ks)
      case _ => None
  }

  /** Reads a rendered plan back into its operation kinds. */
  function ParsePlanString(s: string): Option<seq<RewireOperationKind>>
  {
    if s == "" then Some([])
    else
      var parts := SplitCommas(s);
      match (KindOfName(parts[0]), ParseSpaced(parts[1..]))
      case (Some(k), Some(ks)) => Some([k] + ks)
      case _ => None
  }

  lemma KindNameRoundTrip(k: RewireOperationKind)
    ensures KindOfName(KindName(k)) == Some(k)
    ensures |KindName(k)| > 0 && forall i :: 0 <= i < |KindName(k)| ==> KindName(k)[i] != ','
  {
  }

  lemma {:induction false} KindNamesAt(ops: seq<RewireOperation>)
    ensures forall i :: 0 <= i < |ops| ==> KindNames(ops)[i] == KindName(ops[i].op)
  {
    if ops != [] {
      KindNamesAt(ops[..|ops| - 1]);
    }
  }

  lemma {:induction false} SplitNoComma(x: string)
    requires forall i :: 0 <= i < |x| ==> x[i] != ','
    ensures SplitCommas(x) == [x]
  {
    if x != [] {
      SplitNoComma(x[1..]);
      assert [x[0]] + x[1..] == x;
    }
  }

  lemma {:induction false} SplitAfter(a: string, b: string)
    requires forall i :: 0 <= i < |a| ==> a[i] != ','
    ensures SplitCommas(a + "," + b) == [a] + SplitCommas(b)
  {
    if a == [] {
      assert a + "," + b == [','] + b;
      assert ([','] + b)[1..] == b;
    } else {
      SplitAfter(a[1..], b);
      assert (a + "," + b)[1..] == a[1..] + "," + b;
      assert [a[0]] + a[1..] == a;
    }
  }

  lemma {:induction false} SplitJoin(ss: seq<string>)
    requires ss != []
    requires forall j, i :: 0 <= j < |ss| && 0 <= i < |ss[j]| ==> ss[j][i] != ','
    ensures SplitCommas(Join(ss, ", ")) == [ss[0]] + SpacePrefixed(ss[1..])
  {
    if |ss| == 1 {
      SplitNoComma(ss[0]);
    } else {
      var tail := Join(ss[1..], ", ");
      SplitJoin(ss[1..]);
      assert Join(ss, ", ") == ss[0] + "," + (" " + tail);
      SplitAfter(ss[0], " " + tail);
      assert (" " + tail)[1..] == tail;
      assert ss[1..][1..] == ss[2..];
    }
  }

  lemma {:induction false} ParseSpacedNames(ss: seq<string>, ks: seq<RewireOperationKind>)
    requires |ss| == |ks| && forall i :: 0 <= i < |ss| ==> ss[i] == KindName(ks[i])
    ensures ParseSpaced(SpacePrefixed(ss)) == Some(ks)
  {
    if ss != [] {
      ParseSpacedNames(ss[1..], ks[1..]);
      KindNameRoundTrip(ks[0]);
      assert (" " + ss[0])[1..] == ss[0];
      assert [ks[0]] + ks[1..] == ks;
    }
  }

  /** The rendered plan determines the kinds of its operations, in order. */
  lemma PlanStringRoundTrip(ops: seq<RewireOperation>)
    ensures ParsePlanString(Join(KindNames(ops), ", ")) == Some(Kinds(ops))
  {
    if ops != [] {
      var ss := KindNames(ops);
      KindNamesAt(ops);
      forall j | 0 <= j < |ss| ensures |ss[j]| > 0 && forall i :: 0 <= i < |ss[j]| ==> ss[j][i] != ',' {
        KindNameRoundTrip(ops[j].op);
      }
      SplitJoin(ss);
      assert ss[0] != [] && Join(ss, ", ") != "" by {
        if |ss| > 1 { assert |Join(ss, ", ")| >= |ss[0]|; }
      }
      KindNameRoundTrip(ops[0].op);
      ParseSpacedNames(ss[1..], Kinds(ops)[1..]);
      assert [Kinds(ops)[0]] + Kinds(ops)[1..] == Kinds(ops);
    }
  }

  // ---------------------------------------------------------------------------------------
  // Properties of the index step

  lemma {:induction false} CurrentSpecIDsSpec(cs: seq<Changeset>)
    ensures |CurrentSpecIDs(cs)| <= |cs|
    ensures forall x :: x in CurrentSpecIDs(cs) <==> exists i :: 0 <= i < |cs| && cs[i].currentSpecID == x && x != 0
  {
    if cs != [] {
      var init := cs[..|cs| - 1];
      CurrentSpecIDsSpec(init);
      assert forall i :: 0 <= i < |init| ==> init[i] == cs[i];
    }
  }

  /** The pairing is by position: the i-th returned spec goes to the i-th changeset, whatever its current spec ID. */
  lemma {:induction false} PairSpecsPositional(cs: seq<Changeset>, specs: seq<ChangesetSpec>)
    requires |specs| <= |cs|
    requires forall i, j :: 0 <= i < j < |specs| ==> cs[i].id != cs[j].id
    ensures forall i :: 0 <= i < |specs| ==> cs[i].id in PairSpecs(cs, specs) && PairSpecs(cs, specs)[cs[i].id] == specs[i]
    ensures forall id :: id in PairSpecs(cs, specs) ==> exists i :: 0 <= i < |specs| && cs[i].id == id
  {
    if specs != [] {
      var init := specs[..|specs| - 1];
      PairSpecsPositional(cs, init);
      assert forall i :: 0 <= i < |init| ==> init[i] == specs[i];
    }
  }

  function PairingExample(id: int, currentSpecID: int): Changeset
  {
    Changeset(id, 1, "github", [1], 1, currentSpecID, 0, Unpublished, Queued, "", "", false, false, false, None)
  }

  /**
   * The positional pairing misattributes specs: with changesets [A (no current spec), B (current spec 7)]
   * the store answers the query for [7] with spec 7, which is recorded for A; B then has no paired spec
   * and the head-ref fallback for B dereferences a missing spec.
   */
  lemma PositionalPairingQuirk(env: Env, spec7: ChangesetSpec)
    requires spec7.id == 7
    requires env.listChangesetSpecsByIDs([7]) == Ok([spec7])
    ensures PairSpecs([PairingExample(1, 0), PairingExample(2, 7)], [spec7]) == map[1 := spec7]
    ensures IndexSpec(env, [PairingExample(1, 0), PairingExample(2, 7)]) == Err(NilSpecPanic)
  {
    var a, b := PairingExample(1, 0), PairingExample(2, 7);
    var cs := [a, b];
    assert cs[..1] == [a] && [a][..0] == [];
    assert CurrentSpecIDs([a]) == [];
    assert CurrentSpecIDs(cs) == [7];
    assert [spec7][..0] == [];
    assert PairSpecs(cs, []) == map[];
    var current := PairSpecs(cs, [spec7]);
    assert current == map[cs[0].id := spec7];
    assert HeadRefEntryOf(env.ensureRefPrefix, current, cs[1]) == SpecMissing;
  }

  lemma {:induction false} ExternalIDIndexExact(cs: seq<Changeset>)
    ensures forall i :: 0 <= i < |cs| && cs[i].externalID != "" ==> ExternalKey(cs[i]) in ExternalIDIndex(cs)
    ensures forall k :: k in ExternalIDIndex(cs) ==>
      ExternalIDIndex(cs)[k] in cs && ExternalIDIndex(cs)[k].externalID != "" && ExternalKey(ExternalIDIndex(cs)[k]) == k
  {
    if cs != [] {
      var init := cs[..|cs| - 1];
      ExternalIDIndexExact(init);
      assert forall i :: 0 <= i < |init| ==> init[i] == cs[i];
    }
  }

  /** For a key held by several changesets, the index keeps the last of them. */
  lemma {:induction false} ExternalIDIndexLastWins(cs: seq<Changeset>, i: int)
    requires 0 <= i < |cs| && cs[i].externalID != ""
    requires forall j :: i < j < |cs| && cs[j].externalID != "" ==> ExternalKey(cs[j]) != ExternalKey(cs[i])
    ensures ExternalKey(cs[i]) in ExternalIDIndex(cs) && ExternalIDIndex(cs)[ExternalKey(cs[i])] == cs[i]
  {
    var init := cs[..|cs| - 1];
    if i < |cs| - 1 {
      assert forall j :: 0 <= j < |init| ==> init[j] == cs[j];
      ExternalIDIndexLastWins(init, i);
    }
  }

  lemma {:induction false} HeadRefIndexExact(prefix: string -> string, current: map<int, ChangesetSpec>, cs: seq<Changeset>)
    ensures forall i :: 0 <= i < |cs| && HeadRefEntryOf(prefix, current, cs[i]).IndexedAt? ==>
      HeadRefEntryOf(prefix, current, cs[i]).key in HeadRefIndex(prefix, current, cs)
    ensures forall k :: k in HeadRefIndex(prefix, current, cs) ==>
      HeadRefIndex(prefix, current, cs)[k] in cs && HeadRefEntryOf(prefix, current, HeadRefIndex(prefix, current, cs)[k]) == IndexedAt(k)
  {
    if cs != [] {
      var init := cs[..|cs| - 1];
      HeadRefIndexExact(prefix, current, init);
      assert forall i :: 0 <= i < |init| ==> init[i] == cs[i];
    }
  }

  /**
   * The head-ref index never holds a pure tracked import (external ID, no current spec); a non-empty
   * external branch decides the key, and the current spec's head ref is used only when the branch is
   * empty and there is a current spec.
   */
  lemma HeadRefIndexRules(prefix: string -> string, current: map<int, ChangesetSpec>, cs: seq<Changeset>)
    ensures forall k :: k in HeadRefIndex(prefix, current, cs) ==>
      var c := HeadRefIndex(prefix, current, cs)[k];
      && c in cs
      && !(c.externalID != "" && c.currentSpecID == 0)
      && k.repo == c.repoID
      && (c.externalBranch != "" ==> k.headRef == prefix(c.externalBranch))
      && (c.externalBranch == "" ==> c.currentSpecID != 0 && c.id in current && k.headRef == prefix(current[c.id].spec.headRef))
  {
    HeadRefIndexExact(prefix, current, cs);
  }

  // ---------------------------------------------------------------------------------------
  // Properties of the spec walk and the sweep

  lemma {:induction false} SpecOpsPointwise(env: Env, idx: Indexes, repos: map<int, Repo>, specs: seq<ChangesetSpec>)
    ensures SpecOps(env, idx, repos, specs).Ok? ==>
      && |SpecOps(env, idx, repos, specs).value| == |specs|
      && forall i :: 0 <= i < |specs| ==> SpecOp(env, idx, repos, specs[i]) == Ok(SpecOps(env, idx, repos, specs).value[i])
    ensures SpecOps(env, idx, repos, specs).Err? ==>
      exists i :: 0 <= i < |specs| && SpecOp(env, idx, repos, specs[i]) == Err(SpecOps(env, idx, repos, specs).error)
        && forall j :: 0 <= j < i ==> SpecOp(env, idx, repos, specs[j]).Ok?
    ensures (forall i :: 0 <= i < |specs| ==> SpecOp(env, idx, repos, specs[i]).Ok?) ==> SpecOps(env, idx, repos, specs).Ok?
  {
    if specs != [] {
      var init := specs[..|specs| - 1];
      SpecOpsPointwise(env, idx, repos, init);
      assert forall i :: 0 <= i < |init| ==> init[i] == specs[i];
    }
  }

  /** Once a prefix of the specs fails, planning fails with that error. */
  lemma {:induction false} SpecOpsErrorPrefix(env: Env, idx: Indexes, repos: map<int, Repo>, specs: seq<ChangesetSpec>, n: int)
    requires 0 <= n <= |specs| && SpecOps(env, idx, repos, specs[..n]).Err?
    ensures SpecOps(env, idx, repos, specs) == SpecOps(env, idx, repos, specs[..n])
    decreases |specs| - n
  {
    if n < |specs| {
      assert specs[..|specs| - 1][..n] == specs[..n];
      SpecOpsErrorPrefix(env, idx, repos, specs[..|specs| - 1], n);
    } else {
      assert specs[..n] == specs;
    }
  }

  lemma {:induction false} ClaimedAppend(a: seq<RewireOperation>, b: seq<RewireOperation>)
    ensures Claimed(a + b) == Claimed(a) + Claimed(b)
  {
    if b != [] {
      var init := b[..|b| - 1];
      ClaimedAppend(a, init);
      assert (a + b)[..|a + b| - 1] == a + init;
    } else {
      assert a + b == a;
    }
  }

  lemma {:induction false} ClaimedMembers(ops: seq<RewireOperation>)
    ensures forall id :: id in Claimed(ops) <==>
      exists i :: 0 <= i < |ops| && Claims(ops[i]) && ops[i].changeset.value.id == id
  {
    if ops != [] {
      var init := ops[..|ops| - 1];
      ClaimedMembers(init);
      assert forall i :: 0 <= i < |init| ==> init[i] == ops[i];
    }
  }

  /** The sweep emits its operations in changeset order. */
  lemma {:induction false} SweepOpsAppend(env: Env, campaignID: int, repos: map<int, Repo>, claimed: set<int>, a: seq<Changeset>, b: seq<Changeset>)
    ensures SweepOps(env, campaignID, repos, claimed, a + b)
         == SweepOps(env, campaignID, repos, claimed, a) + SweepOps(env, campaignID, repos, claimed, b)
  {
    if b == [] {
      assert a + b == a;
    } else {
      var init := b[..|b| - 1];
      SweepOpsAppend(env, campaignID, repos, claimed, a, init);
      assert (a + b)[..|a + b| - 1] == a + init;
    }
  }

  lemma {:induction false} SweepOpsExact(env: Env, campaignID: int, repos: map<int, Repo>, claimed: set<int>, cs: seq<Changeset>)
    ensures forall j :: 0 <= j < |SweepOps(env, campaignID, repos, claimed, cs)| ==>
      exists m :: 0 <= m < |cs| && SweepOp(env, campaignID, repos, claimed, cs[m]) == Some(SweepOps(env, campaignID, repos, claimed, cs)[j])
    ensures forall m :: 0 <= m < |cs| && SweepOp(env, campaignID, repos, claimed, cs[m]).Some? ==>
      SweepOp(env, campaignID, repos, claimed, cs[m]).value in SweepOps(env, campaignID, repos, claimed, cs)
  {
    if cs != [] {
      var init := cs[..|cs| - 1];
      SweepOpsExact(env, campaignID, repos, claimed, init);
      assert forall i :: 0 <= i < |init| ==> init[i] == cs[i];
      var sw0 := SweepOps(env, campaignID, repos, claimed, init);
      var sw := SweepOps(env, campaignID, repos, claimed, cs);
      forall j | 0 <= j < |sw|
        ensures exists m :: 0 <= m < |cs| && SweepOp(env, campaignID, repos, claimed, cs[m]) == Some(sw[j])
      {
        if j < |sw0| {
          assert sw[j] == sw0[j];
          var m :| 0 <= m < |init| && SweepOp(env, campaignID, repos, claimed, init[m]) == Some(sw0[j]);
          assert cs[m] == init[m];
        } else {
          assert SweepOp(env, campaignID, repos, claimed, cs[|cs| - 1]) == Some(sw[j]);
        }
      }
      forall m | 0 <= m < |cs| && SweepOp(env, campaignID, repos, claimed, cs[m]).Some?
        ensures SweepOp(env, campaignID, repos, claimed, cs[m]).value in sw
      {
        if m < |init| {
          assert cs[m] == init[m];
        }
      }
    } else {
      assert SweepOps(env, campaignID, repos, claimed, cs) == [];
    }
  }

  // ---------------------------------------------------------------------------------------
  // Properties of the whole plan

  /** The plan is one operation per spec, in spec order, followed by the sweep over the changesets. */
  lemma PlanSpecShape(env: Env, campaignID: int, cs: seq<Changeset>, specs: seq<ChangesetSpec>, repos: map<int, Repo>, pl: seq<RewireOperation>)
    requires PlanSpec(env, campaignID, cs, specs, repos) == Ok(pl)
    ensures IndexSpec(env, cs).Ok?
    ensures |specs| <= |pl|
    ensures SpecOps(env, IndexSpec(env, cs).value, repos, specs) == Ok(pl[..|specs|])
    ensures forall i :: 0 <= i < |specs| ==> SpecOp(env, IndexSpec(env, cs).value, repos, specs[i]) == Ok(pl[i])
    ensures pl[|specs|..] == SweepOps(env, campaignID, repos, Claimed(pl[..|specs|]), cs)
  {
    var idx := IndexSpec(env, cs).value;
    SpecOpsPointwise(env, idx, repos, specs);
    var ops := SpecOps(env, idx, repos, specs).value;
    assert pl == ops + SweepOps(env, campaignID, repos, Claimed(ops), cs);
    assert pl[..|specs|] == ops;
  }

  /** What the sweep emits for an unclaimed changeset of `cs`, as PlanSweepRules states it. */
  predicate SweptBy(env: Env, campaignID: int, repos: map<int, Repo>, claimed: set<int>, cs: seq<Changeset>, o: RewireOperation)
  {
    && o.changeset.Some? && o.spec.None? && o.repo.None?
    && var c := o.changeset.value;
       && c in cs
       && c.id !in claimed
       && c.repoID in repos
       && o.op == (if c.currentSpecID != 0 && c.ownedByCampaignID == campaignID
                   then (if env.published(c) then OpClose else OpDelete)
                   else OpUnlink)
  }

  lemma SweepOpsRules(env: Env, campaignID: int, repos: map<int, Repo>, claimed: set<int>, cs: seq<Changeset>)
    ensures forall j :: 0 <= j < |SweepOps(env, campaignID, repos, claimed, cs)| ==>
      SweptBy(env, campaignID, repos, claimed, cs, SweepOps(env, campaignID, repos, claimed, cs)[j])
  {
    var sw := SweepOps(env, campaignID, repos, claimed, cs);
    SweepOpsExact(env, campaignID, repos, claimed, cs);
    forall j | 0 <= j < |sw|
      ensures SweptBy(env, campaignID, repos, claimed, cs, sw[j])
    {
      var m :| 0 <= m < |cs| && SweepOp(env, campaignID, repos, claimed, cs[m]) == Some(sw[j]);
    }
  }

  /** Each sweep operation carries a loaded, unclaimed changeset in an accessible repository, and its kind follows ownership and publication. */
  lemma PlanSweepRules(env: Env, campaignID: int, cs: seq<Changeset>, specs: seq<ChangesetSpec>, repos: map<int, Repo>, pl: seq<RewireOperation>)
    requires PlanSpec(env, campaignID, cs, specs, repos) == Ok(pl)
    ensures |specs| <= |pl|
    ensures forall j :: |specs| <= j < |pl| ==>
      && pl[j].changeset.Some? && pl[j].spec.None? && pl[j].repo.None?
      && var c := pl[j].changeset.value;
         && c in cs
         && c.id !in Claimed(pl[..|specs|])
         && c.repoID in repos
         && pl[j].op == (if c.currentSpecID != 0 && c.ownedByCampaignID == campaignID
                         then (if env.published(c) then OpClose else OpDelete)
                         else OpUnlink)
  {
    PlanSpecShape(env, campaignID, cs, specs, repos, pl);
    var n := |specs|;
    var claimed := Claimed(pl[..n]);
    SweepOpsRules(env, campaignID, repos, claimed, cs);
    var sw := pl[n..];
    forall j | n <= j < |pl|
      ensures SweptBy(env, campaignID, repos, claimed, cs, pl[j])
    {
      assert pl[j] == sw[j - n];
    }
  }

  /** No sweep operation touches a changeset the specs claimed. */
  lemma SweepAvoidsClaimed(env: Env, campaignID: int, cs: seq<Changeset>, specs: seq<ChangesetSpec>, repos: map<int, Repo>, pl: seq<RewireOperation>, id: int)
    requires PlanSpec(env, campaignID, cs, specs, repos) == Ok(pl)
    requires |specs| <= |pl| && id in Claimed(pl[..|specs|])
    ensures forall j :: |specs| <= j < |pl| ==> pl[j].changeset.Some? && pl[j].changeset.value.id != id
  {
    PlanSweepRules(env, campaignID, cs, specs, repos, pl);
  }

  /** A claiming operation's changeset is in the claimed set. */
  lemma {:induction false} ClaimedAt(ops: seq<RewireOperation>, i: int)
    requires 0 <= i < |ops| && Claims(ops[i])
    ensures ops[i].changeset.value.id in Claimed(ops)
  {
    if i < |ops| - 1 {
      var init := ops[..|ops| - 1];
      assert init[i] == ops[i];
      ClaimedAt(init, i);
    }
  }

  /** Every loaded changeset that no spec claimed and whose repository is accessible gets a sweep operation. */
  lemma PlanSweepComplete(env: Env, campaignID: int, cs: seq<Changeset>, specs: seq<ChangesetSpec>, repos: map<int, Repo>, pl: seq<RewireOperation>)
    requires PlanSpec(env, campaignID, cs, specs, repos) == Ok(pl)
    ensures |specs| <= |pl|
    ensures forall m :: 0 <= m < |cs| && cs[m].id !in Claimed(pl[..|specs|]) && cs[m].repoID in repos ==>
      exists j :: |specs| <= j < |pl| && pl[j].changeset == Some(cs[m])
  {
    PlanSpecShape(env, campaignID, cs, specs, repos, pl);
    var claimed := Claimed(pl[..|specs|]);
    var sw := SweepOps(env, campaignID, repos, claimed, cs);
    SweepOpsExact(env, campaignID, repos, claimed, cs);
    forall m | 0 <= m < |cs| && cs[m].id !in claimed && cs[m].repoID in repos
      ensures exists j :: |specs| <= j < |pl| && pl[j].changeset == Some(cs[m])
    {
      var o := SweepOp(env, campaignID, repos, claimed, cs[m]).value;
      var j' :| 0 <= j' < |sw| && sw[j'] == o;
      assert pl[|specs| + j'] == o;
    }
  }

  lemma SpecOpWellFormed(env: Env, idx: Indexes, repos: map<int, Repo>, spec: ChangesetSpec)
    ensures SpecOp(env, idx, repos, spec).Ok? ==> WellFormed(SpecOp(env, idx, repos, spec).value)
  {
  }

  /** Every operation of a plan carries the fields its kind needs; in particular create and track carry no changeset. */
  lemma PlanWellFormed(env: Env, campaignID: int, cs: seq<Changeset>, specs: seq<ChangesetSpec>, repos: map<int, Repo>, pl: seq<RewireOperation>)
    requires PlanSpec(env, campaignID, cs, specs, repos) == Ok(pl)
    ensures forall j :: 0 <= j < |pl| ==> WellFormed(pl[j])
  {
    PlanSpecShape(env, campaignID, cs, specs, repos, pl);
    PlanSweepRules(env, campaignID, cs, specs, repos, pl);
    var idx := IndexSpec(env, cs).value;
    forall j | 0 <= j < |specs|
      ensures WellFormed(pl[j])
    {
      SpecOpWellFormed(env, idx, repos, specs[j]);
    }
  }

  /** A spec in a repository missing from the accessible repositories makes planning fail. */
  lemma PlanRejectsInaccessibleRepo(env: Env, campaignID: int, cs: seq<Changeset>, specs: seq<ChangesetSpec>, repos: map<int, Repo>, i: int)
    requires 0 <= i < |specs| && specs[i].repoID !in repos
    ensures PlanSpec(env, campaignID, cs, specs, repos).Err?
  {
    if PlanSpec(env, campaignID, cs, specs, repos).Ok? {
      PlanSpecShape(env, campaignID, cs, specs, repos, PlanSpec(env, campaignID, cs, specs, repos).value);
    }
  }

  /** A plan exists only when every spec's repository is accessible and supported. */
  lemma PlanRequiresSupportedRepos(env: Env, campaignID: int, cs: seq<Changeset>, specs: seq<ChangesetSpec>, repos: map<int, Repo>)
    requires PlanSpec(env, campaignID, cs, specs, repos).Ok?
    ensures forall i :: 0 <= i < |specs| ==>
      specs[i].repoID in repos && env.checkRepoSupported(repos[specs[i].repoID]).None?
  {
    PlanSpecShape(env, campaignID, cs, specs, repos, PlanSpec(env, campaignID, cs, specs, repos).value);
  }

  /** How a single spec can fail: inaccessible repository, unsupported repository, or a store error other than "no results". */
  lemma SpecOpErrors(env: Env, idx: Indexes, repos: map<int, Repo>, spec: ChangesetSpec)
    ensures spec.repoID !in repos ==> SpecOp(env, idx, repos, spec) == Err(RepoNotFound(spec.repoID))
    ensures spec.repoID in repos && env.checkRepoSupported(repos[spec.repoID]).Some? ==>
      SpecOp(env, idx, repos, spec) == Err(RepoUnsupported(env.checkRepoSupported(repos[spec.repoID]).value))
    ensures SpecOp(env, idx, repos, spec).Err? ==>
      || spec.repoID !in repos
      || env.checkRepoSupported(repos[spec.repoID]).Some?
      || (var repo := repos[spec.repoID];
          var r := env.getChangeset(GetChangesetOpts(repo.id, spec.spec.externalID, repo.serviceType));
          && env.isImportingExisting(spec.spec)
          && RepoExternalID(spec.repoID, spec.spec.externalID) !in idx.byExternalID
          && r.Err? && r.error != ErrNoResults
          && SpecOp(env, idx, repos, spec) == Err(StoreErr(r.error)))
  {
  }

  /** Planning fails with the error of the first spec that fails. */
  lemma PlanFirstError(env: Env, campaignID: int, cs: seq<Changeset>, specs: seq<ChangesetSpec>, repos: map<int, Repo>, i: int)
    requires IndexSpec(env, cs).Ok?
    requires 0 <= i < |specs|
    requires forall j :: 0 <= j < i ==> SpecOp(env, IndexSpec(env, cs).value, repos, specs[j]).Ok?
    requires SpecOp(env, IndexSpec(env, cs).value, repos, specs[i]).Err?
    ensures PlanSpec(env, campaignID, cs, specs, repos) == Err(SpecOp(env, IndexSpec(env, cs).value, repos, specs[i]).error)
  {
    var idx := IndexSpec(env, cs).value;
    SpecOpsPointwise(env, idx, repos, specs);
    var r := SpecOps(env, idx, repos, specs);
    assert r.Err?;
    var i' :| 0 <= i' < |specs| && SpecOp(env, idx, repos, specs[i']) == Err(r.error)
              && forall j :: 0 <= j < i' ==> SpecOp(env, idx, repos, specs[j]).Ok?;
    assert i' == i;
  }

  /** A track spec whose (repo, external ID) is indexed reuses that changeset: reenqueue exactly when it errored, none otherwise; either way it is attached. */
  lemma PlanTrackMatched(env: Env, campaignID: int, cs: seq<Changeset>, specs: seq<ChangesetSpec>, repos: map<int, Repo>, pl: seq<RewireOperation>, i: int)
    requires PlanSpec(env, campaignID, cs, specs, repos) == Ok(pl)
    requires 0 <= i < |specs| && env.isImportingExisting(specs[i].spec)
    requires RepoExternalID(specs[i].repoID, specs[i].spec.externalID) in ExternalIDIndex(cs)
    ensures |specs| <= |pl| && specs[i].repoID in repos
    ensures var c := ExternalIDIndex(cs)[RepoExternalID(specs[i].repoID, specs[i].spec.externalID)];
      && pl[i] == RewireOperation(Some(c), Some(specs[i]), Some(repos[specs[i].repoID]),
                                  if c.reconcilerState == Errored then OpReenqueue else OpNone)
      && c.id in Claimed(pl[..|specs|])
      && forall j :: |specs| <= j < |pl| ==> pl[j].changeset.Some? && pl[j].changeset.value.id != c.id
  {
    PlanSpecShape(env, campaignID, cs, specs, repos, pl);
    assert pl[..|specs|][i] == pl[i];
    ClaimedAt(pl[..|specs|], i);
    SweepAvoidsClaimed(env, campaignID, cs, specs, repos, pl, pl[i].changeset.value.id);
  }

  /** A track spec that is not indexed is attached to the store's changeset for it if there is one, and tracked anew on "no results"; any other store error aborts. */
  lemma PlanTrackUnmatched(env: Env, campaignID: int, cs: seq<Changeset>, specs: seq<ChangesetSpec>, repos: map<int, Repo>, pl: seq<RewireOperation>, i: int)
    requires PlanSpec(env, campaignID, cs, specs, repos) == Ok(pl)
    requires 0 <= i < |specs| && env.isImportingExisting(specs[i].spec)
    requires RepoExternalID(specs[i].repoID, specs[i].spec.externalID) !in ExternalIDIndex(cs)
    ensures |specs| <= |pl| && specs[i].repoID in repos
    ensures var repo := repos[specs[i].repoID];
      var r := env.getChangeset(GetChangesetOpts(repo.id, specs[i].spec.externalID, repo.serviceType));
      && (r.Ok? || r == Err(ErrNoResults))
      && (r.Ok? ==> pl[i] == RewireOperation(Some(r.value), Some(specs[i]), Some(repo), OpAttachTracked)
                    && r.value.id in Claimed(pl[..|specs|]))
      && (r.Err? ==> pl[i] == RewireOperation(None, Some(specs[i]), Some(repo), OpTrack))
  {
    PlanSpecShape(env, campaignID, cs, specs, repos, pl);
    assert pl[..|specs|][i] == pl[i];
    if pl[i].op == OpAttachTracked {
      ClaimedAt(pl[..|specs|], i);
    }
  }

  /** A branch spec updates the changeset indexed under (repo, prefixed head ref), attaching it, and otherwise creates one. */
  lemma PlanBranch(env: Env, campaignID: int, cs: seq<Changeset>, specs: seq<ChangesetSpec>, repos: map<int, Repo>, pl: seq<RewireOperation>, i: int)
    requires PlanSpec(env, campaignID, cs, specs, repos) == Ok(pl)
    requires 0 <= i < |specs| && !env.isImportingExisting(specs[i].spec)
    ensures |specs| <= |pl| && specs[i].repoID in repos && IndexSpec(env, cs).Ok?
    ensures var byHeadRef := IndexSpec(env, cs).value.byHeadRef;
      var k := RepoHeadRef(specs[i].repoID, env.ensureRefPrefix(specs[i].spec.headRef));
      var repo := repos[specs[i].repoID];
      && (k in byHeadRef ==>
            && pl[i] == RewireOperation(Some(byHeadRef[k]), Some(specs[i]), Some(repo), OpUpdate)
            && byHeadRef[k].id in Claimed(pl[..|specs|])
            && forall j :: |specs| <= j < |pl| ==> pl[j].changeset.Some? && pl[j].changeset.value.id != byHeadRef[k].id)
      && (k !in byHeadRef ==> pl[i] == RewireOperation(None, Some(specs[i]), Some(repo), OpCreate))
  {
    PlanSpecShape(env, campaignID, cs, specs, repos, pl);
    assert pl[..|specs|][i] == pl[i];
    if pl[i].op == OpUpdate {
      ClaimedAt(pl[..|specs|], i);
      SweepAvoidsClaimed(env, campaignID, cs, specs, repos, pl, pl[i].changeset.value.id);
    }
  }

  /**
   * Claiming a changeset does not remove it from matching by later specs: two branch specs with the
   * same repository and head ref both update the same changeset.
   */
  lemma ChangesetMatchedByTwoSpecs(env: Env, campaignID: int, cs: seq<Changeset>, specs: seq<ChangesetSpec>, repos: map<int, Repo>, pl: seq<RewireOperation>, i: int, j: int)
    requires PlanSpec(env, campaignID, cs, specs, repos) == Ok(pl)
    requires 0 <= i < j < |specs|
    requires !env.isImportingExisting(specs[i].spec) && !env.isImportingExisting(specs[j].spec)
    requires specs[i].repoID == specs[j].repoID
    requires env.ensureRefPrefix(specs[i].spec.headRef) == env.ensureRefPrefix(specs[j].spec.headRef)
    requires IndexSpec(env, cs).Ok?
    requires RepoHeadRef(specs[i].repoID, env.ensureRefPrefix(specs[i].spec.headRef)) in IndexSpec(env, cs).value.byHeadRef
    ensures |specs| <= |pl|
    ensures pl[i].op == OpUpdate && pl[j].op == OpUpdate && pl[i].changeset == pl[j].changeset
  {
    PlanBranch(env, campaignID, cs, specs, repos, pl, i);
    PlanBranch(env, campaignID, cs, specs, repos, pl, j);
  }
}
