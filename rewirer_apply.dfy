/**
 * What running a rewirer plan does (the loop of ChangesetRewirer.Rewire), as a function of the
 * state before each step: the persisted changeset rows, the store's next free row ID, the
 * in-memory records of the loaded changesets (the plan's operations point at them, so a
 * mutation made by one operation is seen by every later operation on the same changeset),
 * and the set of changeset IDs marked attached. The imperative Rewire in module
 * ChangesetRewirer is proved to follow these functions step by step.
 */
module RewirerApply {
  import opened Wrappers
  import opened CampaignTypes
  import opened RewirerPlan

  datatype ApplyState = ApplyState(
    rows: map<int, Changeset>,
    nextID: int,
    live: map<int, Changeset>,   // loaded changeset ID -> its current in-memory record
    attached: set<int>)

  /** Running: go on with the next operation. Stopped: Rewire returned in the middle of the plan. */
  datatype Outcome = Running(state: ApplyState) | Stopped(state: ApplyState)

  /** The in-memory record an operation on loaded changeset `c` works on. */
  function Current(live: map<int, Changeset>, c: Changeset): Changeset
  {
    if c.id in live then live[c.id] else c
  }

  /** Loaded changeset `key` now holds `e` in memory, and UpdateChangeset persists `e` under its ID. */
  function Persist(st: ApplyState, key: int, e: Changeset): ApplyState
  {
    st.(rows := st.rows[e.id := e], live := st.live[key := e])
  }

  /** CreateChangeset stores `c` under the next free ID, and the new ID is marked attached. */
  function InsertAttached(st: ApplyState, c: Changeset): ApplyState
  {
    st.(rows := st.rows[st.nextID := c.(id := st.nextID)], nextID := st.nextID + 1,
        attached := st.attached + {st.nextID})
  }

  /** The record createChangesetForSpec builds (before the store assigns its ID). */
  function NewChangesetForSpec(env: Env, campaignID: int, repo: Repo, spec: ChangesetSpec): Changeset
  {
    Changeset(0, spec.repoID, repo.serviceType, [campaignID], campaignID, spec.id, 0,
              Unpublished, Queued, "", "", false, false, false, Some(env.specDiffStat(spec)))
  }

  /** The record the track operation builds: no owner and no current spec. */
  function TrackedChangeset(campaignID: int, repo: Repo, spec: ChangesetSpec): Changeset
  {
    Changeset(0, repo.id, repo.serviceType, [campaignID], 0, 0, 0,
              Published, Queued, spec.spec.externalID, "", false, true, true, None)
  }

  /** updateChangesetToNewSpec before its call to updateAndReenqueue. */
  function UpdatedToSpec(env: Env, campaignID: int, c: Changeset, spec: ChangesetSpec): Changeset
  {
    c.(previousSpecID := c.currentSpecID, currentSpecID := spec.id,
       campaignIDs := c.campaignIDs + [campaignID], diffStat := Some(env.specDiffStat(spec)))
  }

  /** Marking a separately loaded tracked changeset as added to the campaign. */
  function AddedToCampaign(campaignID: int, c: Changeset): Changeset
  {
    c.(addedToCampaign := true, campaignIDs := c.campaignIDs + [campaignID])
  }

  /** A non-errored attach-tracked operation: the one that makes Rewire return early. */
  predicate PlainAttach(o: RewireOperation)
  {
    o.op == OpAttachTracked && o.changeset.Some? && o.changeset.value.reconcilerState != Errored
  }

  /** One iteration of Rewire's loop over the plan, assuming every store write succeeds. */
  function ApplyOp(env: Env, campaignID: int, st: ApplyState, o: RewireOperation): Outcome
    requires WellFormed(o)
  {
    match o.op
    case OpNone =>
      Running(st.(attached := st.attached + {Current(st.live, o.changeset.value).id}))
    case OpUnlink =>
      var c := o.changeset.value;
      Running(Persist(st, c.id, env.removeCampaignID(Current(st.live, c), campaignID)))
    case OpClose =>
      var c := o.changeset.value;
      var closing := Current(st.live, c).(closing := true, reconcilerState := Queued);
      Running(Persist(st, c.id, env.removeCampaignID(closing, campaignID)))
    case OpDelete =>
      Running(st.(rows := st.rows - {o.changeset.value.id}))
    case OpCreate =>
      Running(InsertAttached(st, NewChangesetForSpec(env, campaignID, o.repo.value, o.spec.value)))
    case OpTrack =>
      Running(InsertAttached(st, TrackedChangeset(campaignID, o.repo.value, o.spec.value)))
    case OpUpdate =>
      var c := o.changeset.value;
      var e := env.resetQueued(UpdatedToSpec(env, campaignID, Current(st.live, c), o.spec.value));
      Running(Persist(st, c.id, e).(attached := st.attached + {e.id}))
    case OpReenqueue =>
      var c := o.changeset.value;
      var e := env.resetQueued(Current(st.live, c));
      Running(Persist(st, c.id, e).(attached := st.attached + {e.id}))
    case OpAttachTracked =>
      var e := AddedToCampaign(campaignID, o.changeset.value);
      if e.reconcilerState == Errored then
        var q := env.resetQueued(e);
        Running(st.(rows := st.rows[q.id := q], attached := st.attached + {q.id}))
      else
        Stopped(st.(rows := st.rows[e.id := e]))
  }

  predicate AllWellFormed(ops: seq<RewireOperation>)
  {
    forall i :: 0 <= i < |ops| ==> WellFormed(ops[i])
  }

  /** The operations applied in order; after a Stopped step nothing more happens. */
  function ApplyOps(env: Env, campaignID: int, st: ApplyState, ops: seq<RewireOperation>): Outcome
    requires AllWellFormed(ops)
  {
    if ops == [] then Running(st)
    else
      match ApplyOps(env, campaignID, st, ops[..|ops| - 1])
      case Stopped(s) => Stopped(s)
      case Running(s) => ApplyOp(env, campaignID, s, ops[|ops| - 1])
  }

  /** The in-memory records at the start: every loaded changeset under its own ID. */
  function LiveOf(cs: seq<Changeset>): map<int, Changeset>
  {
    if cs == [] then map[] else LiveOf(cs[..|cs| - 1])[cs[|cs| - 1].id := cs[|cs| - 1]]
  }

  /** The helpers whose bodies are not modelled keep a changeset's ID. */
  ghost predicate IDsPreserved(env: Env)
  {
    && (forall c :: env.resetQueued(c).id == c.id)
    && (forall c, x :: env.removeCampaignID(c, x).id == c.id)
  }

  /** Every in-memory record sits under its own ID. */
  predicate LiveKeyed(live: map<int, Changeset>)
  {
    forall k :: k in live ==> live[k].id == k
  }

  /** The IDs the store hands out for `n` insertions starting at `next`. */
  function CreatedIDs(next: int, n: nat): (ids: set<int>)
    ensures forall k :: k in ids <==> next <= k < next + n
  {
    if n == 0 then {} else CreatedIDs(next, n - 1) + {next + n - 1}
  }

  /** The number of create and track operations, each of which inserts one row. */
  function Creations(ops: seq<RewireOperation>): nat
  {
    if ops == [] then 0
    else Creations(ops[..|ops| - 1]) + (if ops[|ops| - 1].op in {OpCreate, OpTrack} then 1 else 0)
  }

  // ---------------------------------------------------------------------------------------
  // Properties

  lemma {:induction false} LiveOfSpec(cs: seq<Changeset>)
    ensures LiveKeyed(LiveOf(cs))
    ensures forall c :: c in cs ==> c.id in LiveOf(cs)
    ensures forall k :: k in LiveOf(cs) ==> LiveOf(cs)[k] in cs
  {
    if cs != [] {
      LiveOfSpec(cs[..|cs| - 1]);
      assert forall c :: c in cs ==> c in cs[..|cs| - 1] || c == cs[|cs| - 1];
    }
  }

  lemma {:induction false} CreationsAppend(a: seq<RewireOperation>, b: seq<RewireOperation>)
    ensures Creations(a + b) == Creations(a) + Creations(b)
  {
    if b == [] {
      assert a + b == a;
    } else {
      CreationsAppend(a, b[..|b| - 1]);
      assert (a + b)[..|a + b| - 1] == a + b[..|b| - 1];
    }
  }

  /** Running `a + b` is running `a`, then `b` from where `a` left off unless `a` stopped. */
  lemma {:induction false} ApplyOpsAppend(env: Env, campaignID: int, st: ApplyState, a: seq<RewireOperation>, b: seq<RewireOperation>)
    requires AllWellFormed(a) && AllWellFormed(b)
    ensures AllWellFormed(a + b)
    ensures ApplyOps(env, campaignID, st, a + b) ==
      match ApplyOps(env, campaignID, st, a)
      case Stopped(s) => Stopped(s)
      case Running(s) => ApplyOps(env, campaignID, s, b)
  {
    assert AllWellFormed(a + b) by {
      forall i | 0 <= i < |a + b| ensures WellFormed((a + b)[i]) {
        if i >= |a| { assert (a + b)[i] == b[i - |a|]; }
      }
    }
    if b == [] {
      assert a + b == a;
    } else {
      var init := b[..|b| - 1];
      assert AllWellFormed(init) by {
        forall i | 0 <= i < |init| ensures WellFormed(init[i]) { assert init[i] == b[i]; }
      }
      ApplyOpsAppend(env, campaignID, st, a, init);
      assert (a + b)[..|a + b| - 1] == a + init;
      assert (a + b)[|a + b| - 1] == b[|b| - 1];
    }
  }

  /** Running stops exactly when the plan holds a non-errored attach-tracked operation. */
  lemma {:induction false} ApplyOpsStops(env: Env, campaignID: int, st: ApplyState, ops: seq<RewireOperation>)
    requires AllWellFormed(ops)
    ensures ApplyOps(env, campaignID, st, ops).Stopped? <==> exists i :: 0 <= i < |ops| && PlainAttach(ops[i])
  {
    if ops != [] {
      var init := ops[..|ops| - 1];
      assert forall i :: 0 <= i < |init| ==> init[i] == ops[i];
      ApplyOpsStops(env, campaignID, st, init);
      if !ApplyOps(env, campaignID, st, init).Stopped? {
        assert !PlainAttach(ops[|ops| - 1]) ==> forall i :: 0 <= i < |ops| ==> !PlainAttach(ops[i]);
      }
    }
  }

  /**
   * The first non-errored attach-tracked operation is the last one applied: the state Rewire
   * returns with is the one right after it, and every operation before it ran.
   */
  lemma StopsAtFirstPlainAttach(env: Env, campaignID: int, st: ApplyState, ops: seq<RewireOperation>, i: int)
    requires AllWellFormed(ops)
    requires 0 <= i < |ops| && PlainAttach(ops[i])
    requires forall j :: 0 <= j < i ==> !PlainAttach(ops[j])
    ensures ApplyOps(env, campaignID, st, ops[..i]).Running?
    ensures ApplyOps(env, campaignID, st, ops) == ApplyOps(env, campaignID, st, ops[..i + 1])
    ensures ApplyOps(env, campaignID, st, ops)
         == ApplyOp(env, campaignID, ApplyOps(env, campaignID, st, ops[..i]).state, ops[i])
  {
    var pre, rest := ops[..i + 1], ops[i + 1..];
    assert AllWellFormed(pre) by {
      forall j | 0 <= j < |pre| ensures WellFormed(pre[j]) { assert pre[j] == ops[j]; }
    }
    assert AllWellFormed(rest) by {
      forall j | 0 <= j < |rest| ensures WellFormed(rest[j]) { assert rest[j] == ops[i + 1 + j]; }
    }
    assert pre[..i] == ops[..i];
    ApplyOpsStops(env, campaignID, st, ops[..i]);
    assert ApplyOps(env, campaignID, st, pre).Stopped?;
    ApplyOpsAppend(env, campaignID, st, pre, rest);
    assert pre + rest == ops;
  }

  /**
   * When the run does not stop, the attached set grows by exactly the changesets the plan claims
   * plus the IDs of the rows it inserts, and the store's next free ID moves past those rows.
   */
  lemma {:induction false} ApplyMembership(env: Env, campaignID: int, st: ApplyState, ops: seq<RewireOperation>)
    requires AllWellFormed(ops) && IDsPreserved(env) && LiveKeyed(st.live)
    requires ApplyOps(env, campaignID, st, ops).Running?
    ensures var s := ApplyOps(env, campaignID, st, ops).state;
      && LiveKeyed(s.live)
      && s.nextID == st.nextID + Creations(ops)
      && s.attached == st.attached + Claimed(ops) + CreatedIDs(st.nextID, Creations(ops))
  {
    if ops != [] {
      var init := ops[..|ops| - 1];
      var o := ops[|ops| - 1];
      assert AllWellFormed(init) by {
        forall i | 0 <= i < |init| ensures WellFormed(init[i]) { assert init[i] == ops[i]; }
      }
      ApplyMembership(env, campaignID, st, init);
      var s := ApplyOps(env, campaignID, st, init).state;
      ApplyOpMembership(env, campaignID, s, o);
    }
  }

  /** One step of ApplyMembership. */
  lemma ApplyOpMembership(env: Env, campaignID: int, s: ApplyState, o: RewireOperation)
    requires WellFormed(o) && IDsPreserved(env) && LiveKeyed(s.live)
    requires ApplyOp(env, campaignID, s, o).Running?
    ensures var s' := ApplyOp(env, campaignID, s, o).state;
      && LiveKeyed(s'.live)
      && s'.nextID == s.nextID + (if o.op in {OpCreate, OpTrack} then 1 else 0)
      && s'.attached == s.attached + (if Claims(o) then {o.changeset.value.id} else {})
                                   + (if o.op in {OpCreate, OpTrack} then {s.nextID} else {})
  {
  }

  /** Unlink, close and delete never mark anything attached. */
  lemma {:induction false} SweepOpsAttachNothing(env: Env, campaignID: int, st: ApplyState, ops: seq<RewireOperation>)
    requires AllWellFormed(ops)
    requires forall i :: 0 <= i < |ops| ==> ops[i].op in {OpUnlink, OpClose, OpDelete}
    ensures ApplyOps(env, campaignID, st, ops).Running?
    ensures ApplyOps(env, campaignID, st, ops).state.attached == st.attached
    ensures ApplyOps(env, campaignID, st, ops).state.nextID == st.nextID
  {
    if ops != [] {
      var init := ops[..|ops| - 1];
      assert AllWellFormed(init) by {
        forall i | 0 <= i < |init| ensures WellFormed(init[i]) { assert init[i] == ops[i]; }
      }
      ApplyOpsSweepOnly(init, ops);
      SweepOpsAttachNothing(env, campaignID, st, init);
    }
  }

  lemma ApplyOpsSweepOnly(init: seq<RewireOperation>, ops: seq<RewireOperation>)
    requires ops != [] && init == ops[..|ops| - 1]
    requires forall i :: 0 <= i < |ops| ==> ops[i].op in {OpUnlink, OpClose, OpDelete}
    ensures forall i :: 0 <= i < |init| ==> init[i].op in {OpUnlink, OpClose, OpDelete}
  {
    assert forall i :: 0 <= i < |init| ==> init[i] == ops[i];
  }

  /**
   * After a full run of a plan from an empty attached set, the attached set (the campaign's new
   * changeset IDs) is exactly the changesets the specs claimed plus the rows the run inserted; no
   * changeset that the sweep unlinks, closes or deletes is in it.
   */
  lemma FullRunAttached(env: Env, campaignID: int, cs: seq<Changeset>, specs: seq<ChangesetSpec>, repos: map<int, Repo>,
                        pl: seq<RewireOperation>, rows: map<int, Changeset>, next: int)
    requires PlanSpec(env, campaignID, cs, specs, repos) == Ok(pl)
    requires IDsPreserved(env)
    requires forall c :: c in cs ==> c.id < next
    requires AllWellFormed(pl)
    requires ApplyOps(env, campaignID, ApplyState(rows, next, LiveOf(cs), {}), pl).Running?
    ensures |specs| <= |pl|
    ensures var s := ApplyOps(env, campaignID, ApplyState(rows, next, LiveOf(cs), {}), pl).state;
      && s.attached == Claimed(pl[..|specs|]) + CreatedIDs(next, Creations(pl))
      && forall j :: |specs| <= j < |pl| ==> pl[j].changeset.Some? && pl[j].changeset.value.id !in s.attached
  {
    var n := |specs|;
    PlanSweepRules(env, campaignID, cs, specs, repos, pl);
    LiveOfSpec(cs);
    var st0 := ApplyState(rows, next, LiveOf(cs), {});
    ApplyMembership(env, campaignID, st0, pl);
    SweepClaimsNothing(pl, n);
    var s := ApplyOps(env, campaignID, st0, pl).state;
    forall j | n <= j < |pl|
      ensures pl[j].changeset.Some? && pl[j].changeset.value.id !in s.attached
    {
      assert pl[j].changeset.value in cs;
    }
  }

  /** Operations that claim nothing after position `n` add nothing to the claimed set. */
  lemma SweepClaimsNothing(pl: seq<RewireOperation>, n: int)
    requires 0 <= n <= |pl|
    requires forall j :: n <= j < |pl| ==> pl[j].op in {OpUnlink, OpClose, OpDelete}
    ensures Claimed(pl) == Claimed(pl[..n])
  {
    var specPart, sweepPart := pl[..n], pl[n..];
    assert specPart + sweepPart == pl;
    ClaimedAppend(specPart, sweepPart);
    forall j | 0 <= j < |sweepPart|
      ensures !Claims(sweepPart[j])
    {
      assert sweepPart[j] == pl[n + j];
    }
    ClaimedNone(sweepPart);
  }

  lemma {:induction false} ClaimedNone(ops: seq<RewireOperation>)
    requires forall j :: 0 <= j < |ops| ==> !Claims(ops[j])
    ensures Claimed(ops) == {}
  {
    if ops != [] {
      var init := ops[..|ops| - 1];
      assert forall j :: 0 <= j < |init| ==> init[j] == ops[j];
      ClaimedNone(init);
    }
  }

  // ---------------------------------------------------------------------------------------
  // Field effects of single steps

  /** Rows other than `k` are as before. */
  ghost predicate OthersUnchanged(before: map<int, Changeset>, after: map<int, Changeset>, k: int)
  {
    forall j :: j != k ==> (j in after <==> j in before) && (j in after ==> after[j] == before[j])
  }

  /**
   * With a next free ID that no row holds yet (the store's sequence assigns fresh IDs),
   * create inserts an unpublished, queued changeset owned by the campaign and attached to it only, pointing at the spec. */
  lemma CreateEffect(env: Env, campaignID: int, st: ApplyState, o: RewireOperation)
    requires WellFormed(o) && o.op == OpCreate
    requires st.nextID !in st.rows
    ensures ApplyOp(env, campaignID, st, o).Running?
    ensures var s := ApplyOp(env, campaignID, st, o).state;
      && s.rows.Keys == st.rows.Keys + {st.nextID}
      && var c := s.rows[st.nextID];
         && c.id == st.nextID && c.repoID == o.spec.value.repoID
         && c.externalServiceType == o.repo.value.serviceType
         && c.ownedByCampaignID == campaignID && c.currentSpecID == o.spec.value.id
         && c.publicationState == Unpublished && c.reconcilerState == Queued
         && c.campaignIDs == [campaignID] && c.diffStat == Some(env.specDiffStat(o.spec.value))
         && s.nextID == st.nextID + 1 && s.attached == st.attached + {st.nextID}
         && s.live == st.live && OthersUnchanged(st.rows, s.rows, st.nextID)
  {
  }

  /**
   * With a next free ID that no row holds yet, track inserts a published, queued, unsynced
   * changeset with no owner and no current spec, carrying the spec's external ID.
   */
  lemma TrackEffect(env: Env, campaignID: int, st: ApplyState, o: RewireOperation)
    requires WellFormed(o) && o.op == OpTrack
    requires st.nextID !in st.rows
    ensures ApplyOp(env, campaignID, st, o).Running?
    ensures var s := ApplyOp(env, campaignID, st, o).state;
      && s.rows.Keys == st.rows.Keys + {st.nextID}
      && var c := s.rows[st.nextID];
         && c.id == st.nextID && c.repoID == o.repo.value.id
         && c.externalServiceType == o.repo.value.serviceType
         && c.ownedByCampaignID == 0 && c.currentSpecID == 0
         && c.publicationState == Published && c.reconcilerState == Queued && c.unsynced
         && c.addedToCampaign && c.externalID == o.spec.value.spec.externalID
         && c.campaignIDs == [campaignID]
         && s.nextID == st.nextID + 1 && s.attached == st.attached + {st.nextID}
         && s.live == st.live && OthersUnchanged(st.rows, s.rows, st.nextID)
  {
  }

  /**
   * update moves the current spec to the previous one, points the changeset at the new spec,
   * appends the campaign ID (no de-duplication), copies the spec's diff stat, and persists the
   * re-enqueued record; the changeset is attached.
   */
  lemma UpdateEffect(env: Env, campaignID: int, st: ApplyState, o: RewireOperation)
    requires WellFormed(o) && o.op == OpUpdate && IDsPreserved(env) && LiveKeyed(st.live)
    ensures ApplyOp(env, campaignID, st, o).Running?
    ensures var s := ApplyOp(env, campaignID, st, o).state;
      var id := o.changeset.value.id;
      var cur := Current(st.live, o.changeset.value);
      var x := UpdatedToSpec(env, campaignID, cur, o.spec.value);
      && x.previousSpecID == cur.currentSpecID && x.currentSpecID == o.spec.value.id
      && x.campaignIDs == cur.campaignIDs + [campaignID]
      && x.diffStat == Some(env.specDiffStat(o.spec.value))
      && x.(previousSpecID := cur.previousSpecID, currentSpecID := cur.currentSpecID,
            campaignIDs := cur.campaignIDs, diffStat := cur.diffStat) == cur
      && id in s.rows && s.rows[id] == env.resetQueued(x) && id in s.live && s.live[id] == env.resetQueued(x)
      && s.attached == st.attached + {id} && s.nextID == st.nextID
      && OthersUnchanged(st.rows, s.rows, id) && LiveKeyed(s.live)
  {
  }

  /** reenqueue persists the re-enqueued record, which the in-memory record now is too, and attaches the changeset. */
  lemma ReenqueueEffect(env: Env, campaignID: int, st: ApplyState, o: RewireOperation)
    requires WellFormed(o) && o.op == OpReenqueue && IDsPreserved(env) && LiveKeyed(st.live)
    ensures ApplyOp(env, campaignID, st, o).Running?
    ensures var s := ApplyOp(env, campaignID, st, o).state;
      var id := o.changeset.value.id;
      && id in s.rows && s.rows[id] == env.resetQueued(Current(st.live, o.changeset.value))
      && id in s.live && s.live[id] == s.rows[id]
      && s.attached == st.attached + {id} && s.nextID == st.nextID
      && OthersUnchanged(st.rows, s.rows, id) && LiveKeyed(s.live)
  {
  }

  /** unlink removes this campaign's ID and persists the record, which the in-memory record now is too; nothing is attached. */
  lemma UnlinkEffect(env: Env, campaignID: int, st: ApplyState, o: RewireOperation)
    requires WellFormed(o) && o.op == OpUnlink && IDsPreserved(env) && LiveKeyed(st.live)
    ensures ApplyOp(env, campaignID, st, o).Running?
    ensures var s := ApplyOp(env, campaignID, st, o).state;
      var id := o.changeset.value.id;
      && id in s.rows && s.rows[id] == env.removeCampaignID(Current(st.live, o.changeset.value), campaignID)
      && id in s.live && s.live[id] == s.rows[id]
      && s.attached == st.attached && s.nextID == st.nextID
      && OthersUnchanged(st.rows, s.rows, id) && LiveKeyed(s.live)
  {
  }

  /**
   * close marks the record closing and queued, removes this campaign's ID and persists it, and the
   * in-memory record is now the persisted one; nothing is attached.
   */
  lemma CloseEffect(env: Env, campaignID: int, st: ApplyState, o: RewireOperation)
    requires WellFormed(o) && o.op == OpClose && IDsPreserved(env) && LiveKeyed(st.live)
    ensures ApplyOp(env, campaignID, st, o).Running?
    ensures var s := ApplyOp(env, campaignID, st, o).state;
      var id := o.changeset.value.id;
      var cur := Current(st.live, o.changeset.value);
      && id in s.rows
      && s.rows[id] == env.removeCampaignID(cur.(closing := true, reconcilerState := Queued), campaignID)
      && id in s.live && s.live[id] == s.rows[id]
      && s.attached == st.attached && s.nextID == st.nextID
      && OthersUnchanged(st.rows, s.rows, id) && LiveKeyed(s.live)
  {
  }

  /** delete removes the row and nothing else. */
  lemma DeleteEffect(env: Env, campaignID: int, st: ApplyState, o: RewireOperation)
    requires WellFormed(o) && o.op == OpDelete
    ensures ApplyOp(env, campaignID, st, o).Running?
    ensures var s := ApplyOp(env, campaignID, st, o).state;
      && o.changeset.value.id !in s.rows
      && s.attached == st.attached && s.nextID == st.nextID && s.live == st.live
      && OthersUnchanged(st.rows, s.rows, o.changeset.value.id)
  {
  }

  /**
   * attach-tracked marks the separately loaded record as added to the campaign and appends the
   * campaign ID. An errored one is re-enqueued, persisted and attached; any other one is persisted
   * and the run stops there, without attaching it.
   */
  lemma AttachTrackedEffect(env: Env, campaignID: int, st: ApplyState, o: RewireOperation)
    requires WellFormed(o) && o.op == OpAttachTracked && IDsPreserved(env)
    ensures var c := o.changeset.value;
      var e := c.(addedToCampaign := true, campaignIDs := c.campaignIDs + [campaignID]);
      var out := ApplyOp(env, campaignID, st, o);
      && (c.reconcilerState == Errored ==>
            out.Running? && out.state.rows == st.rows[c.id := env.resetQueued(e)]
            && out.state.attached == st.attached + {c.id})
      && (c.reconcilerState != Errored ==>
            out.Stopped? && out.state.rows == st.rows[c.id := e] && out.state.attached == st.attached)
      && out.state.live == st.live && out.state.nextID == st.nextID
  {
  }
}
