/** The arguments and the response shared by both message-list fetchers. */
module SyncTypes {
  import opened Options

  /** The fields of a message channel the fetchers read. */
  datatype Channel = Channel(
    id: string,
    syncCursor: Option<string>,
    loadMessagesAfterDate: Option<string>)

  /** One element of the fetchers' response array. */
  datatype FetchResult = FetchResult(
    messageExternalIds: seq<string>,
    messageExternalIdsToDelete: seq<string>,
    nextSyncCursor: string,
    previousSyncCursor: Option<string>,
    folderId: Option<string>)

  /** The driver exception codes the fetchers raise. */
  datatype DriverError = SyncCancelled | NoNextSyncCursor

  /** A result with no additions, no deletions and the given cursors. */
  function EmptyResult(nextSyncCursor: string, previousSyncCursor: Option<string>): FetchResult
  {
    FetchResult([], [], nextSyncCursor, previousSyncCursor, None)
  }
}
