/**
 * The changeset rewirer: given a campaign, the changesets attached to or owned by it and the
 * changeset specs of its new campaign spec, it indexes the changesets, plans one operation per
 * spec plus a sweep over the changesets no spec claimed, and applies the plan to the store.
 * Each method is proved to compute the specification functions of RewirerPlan and RewirerApply.
 */
module ChangesetRewirer {
  import opened Wrappers
  import opened CampaignTypes
  import opened CampaignStore
  import opened RewirerPlan
  import opened RewirerApply

  predicate NoDuplicates(ids: seq<int>)
  {
    forall i, j :: 0 <= i < j < |ids| ==> ids[i] != ids[j]
  }

  /** `c` is `before` with its changeset IDs replaced by the attached set, each ID once. */
  ghost predicate CampaignRewired(before: Campaign, c: Campaign, attached: set<int>)
  {
    && c == before.(changesetIDs := c.changesetIDs)
    && NoDuplicates(c.changesetIDs)
    && (forall x :: x in c.changesetIDs <==> x in attached)
  }

  /** The IDs of `s` in some order, each once: the loop over Go's attachedChangesets map. */
  method IDsOf(s: set<int>) returns (ids: seq<int>)
    ensures NoDuplicates(ids)
    ensures forall x :: x in ids <==> x in s
  {
    ids := [];
    var rest := s;
    while rest != {}
      invariant rest <= s
      invariant NoDuplicates(ids)
      invariant forall x :: x in ids <==> x in s && x !in rest
      decreases rest
    {
      HasMember(rest);
      var x :| x in rest;
      ids := ids + [x];
      rest := rest - {x};
    }
  }

  /** rewirerPlan.String: the operation kinds joined by ", ". */
  method PlanString(pl: seq<RewireOperation>) returns (s: string)
    ensures s == Join(KindNames(pl), ", ")
  {
    var ss: seq<string> := [];
    for i := 0 to |pl|
      invariant ss == KindNames(pl[..i])
    {
      assert pl[..i + 1][..i] == pl[..i];
      ss := ss + [KindName(pl[i].op)];
    }
    assert pl[..|pl|] == pl;
    s := Join(ss, ", ");
  }

  /** The first loop of indexAssociations: the non-zero current spec IDs, in changeset order. */
  method CollectCurrentSpecIDs(cs: seq<Changeset>) returns (ids: seq<int>)
    ensures ids == CurrentSpecIDs(cs)
  {
    ids := [];
    for i := 0 to |cs|
      invariant ids == CurrentSpecIDs(cs[..i])
    {
      assert cs[..i + 1][..i] == cs[..i];
      if cs[i].currentSpecID != 0 {
        ids := ids + [cs[i].currentSpecID];
      }
    }
    assert cs[..|cs|] == cs;
  }

  class ChangesetRewirer {
    var campaign: Campaign
    const tx: Store
    const env: Env

    // populated by loadAssociations
    var changesets: seq<Changeset>
    var newChangesetSpecs: seq<ChangesetSpec>
    var accessibleReposByID: map<int, Repo>

    // populated by indexAssociations
    var changesetsByRepoHeadRef: map<RepoHeadRef, Changeset>
    var changesetsByRepoExternalID: map<RepoExternalID, Changeset>
    var currentSpecsByChangeset: map<int, ChangesetSpec>

    /** The in-memory records of the loaded changesets, by loaded ID: what the plan's operations point at. */
    var records: map<int, Changeset>

    /** A rewirer whose loadAssociations step returned `cs`, `specs` and `repos`. */
    constructor (c: Campaign, store: Store, e: Env, cs: seq<Changeset>, specs: seq<ChangesetSpec>, repos: map<int, Repo>)
      ensures campaign == c && tx == store && env == e
      ensures changesets == cs && newChangesetSpecs == specs && accessibleReposByID == repos
      ensures records == LiveOf(cs)
      ensures changesetsByRepoHeadRef == map[] && changesetsByRepoExternalID == map[] && currentSpecsByChangeset == map[]
    {
      campaign, tx, env := c, store, e;
      changesets, newChangesetSpecs, accessibleReposByID := cs, specs, repos;
      records := LiveOf(cs);
      changesetsByRepoHeadRef, changesetsByRepoExternalID, currentSpecsByChangeset := map[], map[], map[];
    }

    /** indexAssociations: fills the three index maps, or fails as the source does. */
    method IndexAssociations() returns (err: Option<RewireError>)
      modifies this`changesetsByRepoHeadRef, this`changesetsByRepoExternalID, this`currentSpecsByChangeset
      ensures IndexSpec(env, changesets).Err? ==> err == Some(IndexSpec(env, changesets).error)
      ensures IndexSpec(env, changesets).Ok? ==>
        && err.None?
        && IndexSpec(env, changesets).value
           == Indexes(changesetsByRepoHeadRef, changesetsByRepoExternalID, currentSpecsByChangeset)
    {
      changesetsByRepoHeadRef, changesetsByRepoExternalID, currentSpecsByChangeset := map[], map[], map[];
      var currentChangesetIDs := CollectCurrentSpecIDs(changesets);
      var listed := env.listChangesetSpecsByIDs(currentChangesetIDs);
      if listed.Err? {
        return Some(StoreErr(listed.error));
      }
      err := PairCurrentSpecs(listed.value);
      if err.Some? {
        return;
      }
      err := IndexChangesets();
    }

    /** The second loop of indexAssociations: the i-th spec is recorded for the i-th changeset; past the last changeset Go panics. */
    method PairCurrentSpecs(specs: seq<ChangesetSpec>) returns (err: Option<RewireError>)
      requires currentSpecsByChangeset == map[]
      modifies this`currentSpecsByChangeset
      ensures |specs| > |changesets| ==> err == Some(IndexOutOfRangePanic)
      ensures |specs| <= |changesets| ==> err.None? && currentSpecsByChangeset == PairSpecs(changesets, specs)
    {
      for i := 0 to |specs|
        invariant i <= |changesets|
        invariant currentSpecsByChangeset == PairSpecs(changesets, specs[..i])
      {
        if i >= |changesets| {
          return Some(IndexOutOfRangePanic);
        }
        assert specs[..i + 1][..i] == specs[..i];
        currentSpecsByChangeset := currentSpecsByChangeset[changesets[i].id := specs[i]];
      }
      assert specs[..|specs|] == specs;
      err := None;
    }

    /** The third loop of indexAssociations: the external-ID and head-ref indexes. */
    method IndexChangesets() returns (err: Option<RewireError>)
      requires changesetsByRepoHeadRef == map[] && changesetsByRepoExternalID == map[]
      modifies this`changesetsByRepoHeadRef, this`changesetsByRepoExternalID
      ensures SomeSpecMissing(env.ensureRefPrefix, currentSpecsByChangeset, changesets) ==> err == Some(NilSpecPanic)
      ensures !SomeSpecMissing(env.ensureRefPrefix, currentSpecsByChangeset, changesets) ==>
        && err.None?
        && changesetsByRepoExternalID == ExternalIDIndex(changesets)
        && changesetsByRepoHeadRef == HeadRefIndex(env.ensureRefPrefix, currentSpecsByChangeset, changesets)
    {
      assert changesets[..0] == [];
      for i := 0 to |changesets|
        invariant changesetsByRepoExternalID == ExternalIDIndex(changesets[..i])
        invariant changesetsByRepoHeadRef == HeadRefIndex(env.ensureRefPrefix, currentSpecsByChangeset, changesets[..i])
        invariant forall j :: 0 <= j < i ==> !HeadRefEntryOf(env.ensureRefPrefix, currentSpecsByChangeset, changesets[j]).SpecMissing?
      {
        assert changesets[..i + 1][..i] == changesets[..i];
        var c := changesets[i];
        if c.externalID != "" {
          changesetsByRepoExternalID := changesetsByRepoExternalID[RepoExternalID(c.repoID, c.externalID) := c];
        }
        if c.externalID != "" && c.currentSpecID == 0 {
          // a tracked changeset: not matched by head ref
        } else if c.externalBranch != "" {
          changesetsByRepoHeadRef := changesetsByRepoHeadRef[RepoHeadRef(c.repoID, env.ensureRefPrefix(c.externalBranch)) := c];
        } else if c.currentSpecID != 0 {
          if c.id !in currentSpecsByChangeset {
            // Go dereferences the missing spec and panics.
            assert HeadRefEntryOf(env.ensureRefPrefix, currentSpecsByChangeset, changesets[i]).SpecMissing?;
            return Some(NilSpecPanic);
          }
          var s := currentSpecsByChangeset[c.id];
          changesetsByRepoHeadRef := changesetsByRepoHeadRef[RepoHeadRef(c.repoID, env.ensureRefPrefix(s.spec.headRef)) := c];
        }
      }
      assert changesets[..|changesets|] == changesets;
      err := None;
    }

    /** Plan (after loadAssociations): the operations for the specs, then the sweep. */
    method Plan() returns (pl: seq<RewireOperation>, err: Option<RewireError>)
      modifies this`changesetsByRepoHeadRef, this`changesetsByRepoExternalID, this`currentSpecsByChangeset
      ensures PlanSpec(env, campaign.id, changesets, newChangesetSpecs, accessibleReposByID)
           == if err.None? then Ok(pl) else Err(err.value)
    {
      pl := [];
      err := IndexAssociations();
      if err.Some? {
        return;
      }
      ghost var idx := Indexes(changesetsByRepoHeadRef, changesetsByRepoExternalID, currentSpecsByChangeset);

      var attachedChangesets: set<int> := {};
      for i := 0 to |newChangesetSpecs|
        invariant idx == Indexes(changesetsByRepoHeadRef, changesetsByRepoExternalID, currentSpecsByChangeset)
        invariant SpecOps(env, idx, accessibleReposByID, newChangesetSpecs[..i]) == Ok(pl)
        invariant attachedChangesets == Claimed(pl)
      {
        assert newChangesetSpecs[..i + 1][..i] == newChangesetSpecs[..i];
        assert newChangesetSpecs[..i + 1][i] == newChangesetSpecs[i];
        var o;
        o, attachedChangesets, err := PlanForSpec(newChangesetSpecs[i], attachedChangesets);
        if err.Some? {
          SpecOpsErrorPrefix(env, idx, accessibleReposByID, newChangesetSpecs, i + 1);
          if err.value.StoreErr? {
            return [], err;
          }
          return;
        }
        assert pl + [o] != [] && (pl + [o])[..|pl|] == pl;
        pl := pl + [o];
      }
      assert newChangesetSpecs[..|newChangesetSpecs|] == newChangesetSpecs;

      ghost var specOps := pl;
      for i := 0 to |changesets|
        invariant pl == specOps + SweepOps(env, campaign.id, accessibleReposByID, attachedChangesets, changesets[..i])
      {
        assert changesets[..i + 1][..i] == changesets[..i];
        var c := changesets[i];
        if c.id in attachedChangesets {
          // claimed by a spec
        } else if c.repoID !in accessibleReposByID {
          // not accessible: neither detached nor closed
        } else if c.currentSpecID != 0 && c.ownedByCampaignID == campaign.id {
          if env.published(c) {
            pl := pl + [RewireOperation(Some(c), None, None, OpClose)];
          } else {
            pl := pl + [RewireOperation(Some(c), None, None, OpDelete)];
          }
        } else {
          pl := pl + [RewireOperation(Some(c), None, None, OpUnlink)];
        }
      }
      assert changesets[..|changesets|] == changesets;
      err := None;
    }

    /**
     * One iteration of Plan's loop over the new specs: the operation for `spec`, with its
     * changeset marked attached when the operation claims one, or the error that ends planning.
     */
    method PlanForSpec(spec: ChangesetSpec, attached: set<int>) returns (o: RewireOperation, attached': set<int>, err: Option<RewireError>)
      ensures var idx := Indexes(changesetsByRepoHeadRef, changesetsByRepoExternalID, currentSpecsByChangeset);
        && (err.None? ==> SpecOp(env, idx, accessibleReposByID, spec) == Ok(o)
                          && attached' == attached + (if Claims(o) then {o.changeset.value.id} else {}))
        && (err.Some? ==> SpecOp(env, idx, accessibleReposByID, spec) == Err(err.value))
    {
      o, attached', err := RewireOperation(None, None, None, OpNone), attached, None;
      if spec.repoID !in accessibleReposByID {
        err := Some(RepoNotFound(spec.repoID));
        return;
      }
      var repo := accessibleReposByID[spec.repoID];
      var unsupported := env.checkRepoSupported(repo);
      if unsupported.Some? {
        err := Some(RepoUnsupported(unsupported.value));
        return;
      }
      if env.isImportingExisting(spec.spec) {
        var k := RepoExternalID(spec.repoID, spec.spec.externalID);
        if k in changesetsByRepoExternalID {
          var c := changesetsByRepoExternalID[k];
          if c.reconcilerState == Errored {
            o := RewireOperation(Some(c), Some(spec), Some(repo), OpReenqueue);
          } else {
            o := RewireOperation(Some(c), Some(spec), Some(repo), OpNone);
          }
          attached' := attached + {c.id};
        } else {
          var existing := env.getChangeset(GetChangesetOpts(repo.id, k.externalID, repo.serviceType));
          if existing.Err? && existing.error != ErrNoResults {
            err := Some(StoreErr(existing.error));
            return;
          }
          if existing.Ok? {
            o := RewireOperation(Some(existing.value), Some(spec), Some(repo), OpAttachTracked);
            attached' := attached + {existing.value.id};
          } else {
            o := RewireOperation(None, Some(spec), Some(repo), OpTrack);
          }
        }
      } else {
        var k := RepoHeadRef(spec.repoID, env.ensureRefPrefix(spec.spec.headRef));
        if k !in changesetsByRepoHeadRef {
          o := RewireOperation(None, Some(spec), Some(repo), OpCreate);
        } else {
          var c := changesetsByRepoHeadRef[k];
          o := RewireOperation(Some(c), Some(spec), Some(repo), OpUpdate);
          attached' := attached + {c.id};
        }
      }
    }

    /** updateAndReenqueue: re-enqueues the record and persists it. */
    method UpdateAndReenqueue(ch: Changeset) returns (c: Changeset, err: Option<StoreError>)
      modifies tx
      ensures c == env.resetQueued(ch)
      ensures err.None? ==> tx.changesets == old(tx.changesets)[c.id := c] && tx.nextID == old(tx.nextID)
      ensures err.Some? ==> tx.changesets == old(tx.changesets) && tx.nextID == old(tx.nextID)
      ensures tx.campaigns == old(tx.campaigns)
    {
      c := env.resetQueued(ch);
      err := tx.UpdateChangeset(c);
    }

    /** updateChangesetToNewSpec: points the record at the new spec and re-enqueues it. */
    method UpdateChangesetToNewSpec(ch: Changeset, spec: ChangesetSpec) returns (c: Changeset, err: Option<StoreError>)
      modifies tx
      ensures c == env.resetQueued(UpdatedToSpec(env, campaign.id, ch, spec))
      ensures err.None? ==> tx.changesets == old(tx.changesets)[c.id := c] && tx.nextID == old(tx.nextID)
      ensures err.Some? ==> tx.changesets == old(tx.changesets) && tx.nextID == old(tx.nextID)
      ensures tx.campaigns == old(tx.campaigns)
    {
      var updated := ch.(previousSpecID := ch.currentSpecID, currentSpecID := spec.id);
      updated := updated.(campaignIDs := updated.campaignIDs + [campaign.id]);
      updated := updated.(diffStat := Some(env.specDiffStat(spec)));
      c, err := UpdateAndReenqueue(updated);
    }

    /** createChangesetForSpec: inserts a new changeset for the spec, owned by the campaign. */
    method CreateChangesetForSpec(repo: Repo, spec: ChangesetSpec) returns (c: Changeset, err: Option<StoreError>)
      modifies tx
      ensures err.None? ==>
        && c == NewChangesetForSpec(env, campaign.id, repo, spec).(id := old(tx.nextID))
        && tx.changesets == old(tx.changesets)[c.id := c] && tx.nextID == old(tx.nextID) + 1
      ensures err.Some? ==> tx.changesets == old(tx.changesets) && tx.nextID == old(tx.nextID)
      ensures tx.campaigns == old(tx.campaigns)
    {
      c := NewChangesetForSpec(env, campaign.id, repo, spec);
      var id;
      id, err := tx.CreateChangeset(c);
      if err.None? {
        c := c.(id := id);
      }
    }

    /**
     * One iteration of Rewire's loop: applies `s` to the store and to the in-memory records, and
     * returns the new attached set. `stop` is set by a non-errored attach-tracked step, after
     * which Rewire returns. A failed write leaves the store as it was.
     */
    method RewireStep(s: RewireOperation, attached: set<int>) returns (attached': set<int>, stop: bool, werr: Option<StoreError>)
      requires WellFormed(s)
      modifies this`records, tx
      ensures tx.campaigns == old(tx.campaigns)
      ensures werr.None? ==>
        ApplyOp(env, campaign.id, ApplyState(old(tx.changesets), old(tx.nextID), old(records), attached), s)
        == (if stop then Stopped(ApplyState(tx.changesets, tx.nextID, records, attached'))
            else Running(ApplyState(tx.changesets, tx.nextID, records, attached')))
      ensures werr.Some? ==> tx.changesets == old(tx.changesets) && tx.nextID == old(tx.nextID)
    {
      var cid := campaign.id;
      attached', stop, werr := attached, false, None;
      match s.op {
        case OpNone =>
          attached' := attached + {Current(records, s.changeset.value).id};
        case OpUnlink =>
          var c := s.changeset.value;
          var e := env.removeCampaignID(Current(records, c), cid);
          records := records[c.id := e];
          werr := tx.UpdateChangeset(e);
        case OpClose =>
          var c := s.changeset.value;
          var e := Current(records, c).(closing := true, reconcilerState := Queued);
          e := env.removeCampaignID(e, cid);
          records := records[c.id := e];
          werr := tx.UpdateChangeset(e);
        case OpDelete =>
          werr := tx.DeleteChangeset(s.changeset.value.id);
        case OpCreate =>
          var c;
          c, werr := CreateChangesetForSpec(s.repo.value, s.spec.value);
          attached' := attached + {c.id};
        case OpUpdate =>
          var c := s.changeset.value;
          var e;
          e, werr := UpdateChangesetToNewSpec(Current(records, c), s.spec.value);
          records := records[c.id := e];
          attached' := attached + {e.id};
        case OpReenqueue =>
          var c := s.changeset.value;
          var e;
          e, werr := UpdateAndReenqueue(Current(records, c));
          records := records[c.id := e];
          attached' := attached + {e.id};
        case OpTrack =>
          var newChangeset := TrackedChangeset(cid, s.repo.value, s.spec.value);
          var id;
          id, werr := tx.CreateChangeset(newChangeset);
          attached' := attached + {id};
        case OpAttachTracked =>
          var e := s.changeset.value;
          e := e.(addedToCampaign := true);
          e := e.(campaignIDs := e.campaignIDs + [cid]);
          if e.reconcilerState == Errored {
            e, werr := UpdateAndReenqueue(e);
            attached' := attached + {e.id};
          } else {
            // Rewire returns the result of this write: the rest of the plan and the campaign update are skipped.
            werr := tx.UpdateChangeset(e);
            stop := true;
          }
      }
    }

    /**
     * Rewire: plans, then applies the plan step by step. A planning error returns before any
     * write. Otherwise every write may fail, which returns with the writes of the steps before
     * it. A non-errored attach-tracked step returns right after its write. A full run stores the
     * campaign with its changeset IDs replaced by the attached set, in some order.
     */
    method Rewire() returns (err: Option<RewireError>)
      modifies this, tx
      ensures campaign.id == old(campaign.id)
      ensures changesets == old(changesets) && newChangesetSpecs == old(newChangesetSpecs)
      ensures accessibleReposByID == old(accessibleReposByID)
      ensures PlanSpec(env, campaign.id, changesets, newChangesetSpecs, accessibleReposByID).Err? ==>
        && err == Some(PlanSpec(env, campaign.id, changesets, newChangesetSpecs, accessibleReposByID).error)
        && unchanged(tx)
      ensures PlanSpec(env, campaign.id, changesets, newChangesetSpecs, accessibleReposByID).Ok? ==>
        var pl := PlanSpec(env, campaign.id, changesets, newChangesetSpecs, accessibleReposByID).value;
        var st0 := ApplyState(old(tx.changesets), old(tx.nextID), old(records), {});
        && AllWellFormed(pl)
        && (err.None? && ApplyOps(env, campaign.id, st0, pl).Stopped? ==>
              && tx.changesets == ApplyOps(env, campaign.id, st0, pl).state.rows
              && tx.nextID == ApplyOps(env, campaign.id, st0, pl).state.nextID
              && campaign == old(campaign)
              && tx.campaigns == old(tx.campaigns))
        && (err.None? && ApplyOps(env, campaign.id, st0, pl).Running? ==>
              && tx.changesets == ApplyOps(env, campaign.id, st0, pl).state.rows
              && tx.nextID == ApplyOps(env, campaign.id, st0, pl).state.nextID
              && CampaignRewired(old(campaign), campaign, ApplyOps(env, campaign.id, st0, pl).state.attached)
              && tx.campaigns == old(tx.campaigns)[campaign.id := campaign])
        && (err.Some? ==>
              && tx.campaigns == old(tx.campaigns)
              && ((&& campaign == old(campaign)
                   && exists k :: 0 <= k <= |pl| && ApplyOps(env, campaign.id, st0, pl[..k]).Running?
                        && tx.changesets == ApplyOps(env, campaign.id, st0, pl[..k]).state.rows
                        && tx.nextID == ApplyOps(env, campaign.id, st0, pl[..k]).state.nextID)
                  || (&& ApplyOps(env, campaign.id, st0, pl).Running?
                      && tx.changesets == ApplyOps(env, campaign.id, st0, pl).state.rows
                      && tx.nextID == ApplyOps(env, campaign.id, st0, pl).state.nextID
                      && CampaignRewired(old(campaign), campaign, ApplyOps(env, campaign.id, st0, pl).state.attached))))
    {
      var pl, perr := Plan();
      if perr.Some? {
        return perr;
      }
      PlanWellFormed(env, campaign.id, changesets, newChangesetSpecs, accessibleReposByID, pl);
      var cid := campaign.id;
      ghost var st0 := ApplyState(tx.changesets, tx.nextID, records, {});
      assert pl[..0] == [];

      var attachedChangesets: set<int> := {};
      for i := 0 to |pl|
        invariant campaign == old(campaign) && cid == campaign.id
        invariant changesets == old(changesets) && newChangesetSpecs == old(newChangesetSpecs)
        invariant accessibleReposByID == old(accessibleReposByID)
        invariant ApplyOps(env, cid, st0, pl[..i]) == Running(ApplyState(tx.changesets, tx.nextID, records, attachedChangesets))
        invariant tx.campaigns == old(tx.campaigns)
      {
        assert pl[..i + 1][..i] == pl[..i] && pl[..i + 1][i] == pl[i];
        ghost var before := ApplyState(tx.changesets, tx.nextID, records, attachedChangesets);
        assert ApplyOps(env, cid, st0, pl[..i + 1]) == ApplyOp(env, cid, before, pl[i]);
        var stop, werr;
        attachedChangesets, stop, werr := RewireStep(pl[i], attachedChangesets);
        if werr.Some? {
          return Some(StoreErr(werr.value));
        }
        if stop {
          ApplyOpsStops(env, cid, st0, pl[..i]);
          assert forall j :: 0 <= j < i ==> pl[..i][j] == pl[j];
          StopsAtFirstPlainAttach(env, cid, st0, pl, i);
          return None;
        }
      }
      assert pl[..|pl|] == pl;

      var ids := IDsOf(attachedChangesets);
      campaign := campaign.(changesetIDs := ids);
      var cerr := tx.UpdateCampaign(campaign);
      if cerr.Some? {
        return Some(StoreErr(cerr.value));
      }
      err := None;
    }
  }
}
