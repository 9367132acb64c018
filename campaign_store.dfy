/**
 * The write side of the campaigns store (`r.tx` in the rewirer): the persisted changeset rows
 * and campaigns, and the four writes the rewirer issues. Any write may fail; a failed write
 * persists nothing. Row IDs for new changesets are handed out by a counter.
 */
module CampaignStore {
  import opened Wrappers
  import opened CampaignTypes

  datatype StoreError = ErrNoResults | StoreFailure(message: string)

  class Store {
    ghost var changesets: map<int, Changeset>
    ghost var campaigns: map<int, Campaign>
    var nextID: int

    constructor (rows: map<int, Changeset>, campaignRows: map<int, Campaign>, firstFreeID: int)
      ensures changesets == rows && campaigns == campaignRows && nextID == firstFreeID
    {
      changesets := rows;
      campaigns := campaignRows;
      nextID := firstFreeID;
    }

    /** Inserts `c` under a new ID, which it returns. */
    method CreateChangeset(c: Changeset) returns (id: int, err: Option<StoreError>)
      modifies this
      ensures err.None? ==> id == old(nextID) && nextID == old(nextID) + 1
      ensures err.None? ==> changesets == old(changesets)[id := c.(id := id)] && campaigns == old(campaigns)
      ensures err.Some? ==> unchanged(this)
    {
      var failed: bool := *;
      if failed {
        id, err := 0, Some(StoreFailure("create changeset"));
        return;
      }
      id := nextID;
      nextID := nextID + 1;
      changesets := changesets[id := c.(id := id)];
      err := None;
    }

    /** Persists the full row `c` under its ID. */
    method UpdateChangeset(c: Changeset) returns (err: Option<StoreError>)
      modifies this
      ensures err.None? ==> changesets == old(changesets)[c.id := c]
      ensures err.None? ==> campaigns == old(campaigns) && nextID == old(nextID)
      ensures err.Some? ==> unchanged(this)
    {
      var failed: bool := *;
      if failed {
        err := Some(StoreFailure("update changeset"));
        return;
      }
      changesets := changesets[c.id := c];
      err := None;
    }

    method DeleteChangeset(id: int) returns (err: Option<StoreError>)
      modifies this
      ensures err.None? ==> changesets == old(changesets) - {id}
      ensures err.None? ==> campaigns == old(campaigns) && nextID == old(nextID)
      ensures err.Some? ==> unchanged(this)
    {
      var failed: bool := *;
      if failed {
        err := Some(StoreFailure("delete changeset"));
        return;
      }
      changesets := changesets - {id};
      err := None;
    }

    method UpdateCampaign(c: Campaign) returns (err: Option<StoreError>)
      modifies this
      ensures err.None? ==> campaigns == old(campaigns)[c.id := c]
      ensures err.None? ==> changesets == old(changesets) && nextID == old(nextID)
      ensures err.Some? ==> unchanged(this)
    {
      var failed: bool := *;
      if failed {
        err := Some(StoreFailure("update campaign"));
        return;
      }
      campaigns := campaigns[c.id := c];
      err := None;
    }
  }
}
