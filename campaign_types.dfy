/**
 * The records of the campaigns package that the rewirer reads and writes:
 * repositories, changeset specs, changesets and campaigns.
 * Only the fields the rewirer touches are modelled.
 */
module CampaignTypes {
  import opened Wrappers

  /** State of the asynchronous reconciler's work item for a changeset. */
  datatype ReconcilerState = Queued | Processing | Errored | Completed

  /** Whether a changeset has been created on the code host. */
  datatype PublicationState = Unpublished | Published

  datatype DiffStat = DiffStat(added: int, changed: int, deleted: int)

  /** A repository as returned by the access-filtered repository lookup. */
  datatype Repo = Repo(id: int, serviceType: string)

  /** The user-written part of a changeset spec. */
  datatype ChangesetSpecDescription = ChangesetSpecDescription(
    externalID: string,   // set when the spec tracks an existing changeset
    headRef: string,      // the branch a branch-managed spec pushes to
    published: bool)

  datatype ChangesetSpec = ChangesetSpec(id: int, repoID: int, spec: ChangesetSpecDescription)

  /** A changeset row. An ID, spec ID or campaign ID of 0 means "none", as in the source. */
  datatype Changeset = Changeset(
    id: int,
    repoID: int,
    externalServiceType: string,
    campaignIDs: seq<int>,
    ownedByCampaignID: int,
    currentSpecID: int,
    previousSpecID: int,
    publicationState: PublicationState,
    reconcilerState: ReconcilerState,
    externalID: string,
    externalBranch: string,
    closing: bool,
    unsynced: bool,
    addedToCampaign: bool,
    diffStat: Option<DiffStat>)

  datatype Campaign = Campaign(id: int, campaignSpecID: int, changesetIDs: seq<int>)
}
