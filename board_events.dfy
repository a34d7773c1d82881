/**
 * The abstract events the board service emits. Calls into the whiteboard SDK,
 * notifications to the registered observer and messages handed to the IM
 * transport are recorded, in order, in append-only ghost traces of these values.
 */
module BoardEvents {

  /** A call into the whiteboard rendering SDK. */
  datatype BoardCall =
    | UseBackground(url: string, pageId: string)
      // `pageOperate(target)` is the call with no deleted pages
    | PageOperate(target: string, deleted: seq<string>)

  /** A notification delivered to the observer (`BoardServiceCallback`). */
  datatype Notice =
    | UploadProgress(percent: int)
    | UploadResult(success: bool)
    | StatusChanged(canUndo: bool, canRedo: bool, canCopy: bool, canRemove: bool)
    | SyncEventResult(success: bool)

  /** A message handed to the instant-messaging transport. */
  datatype Outbound = WhiteBoardData(roomId: string, data: seq<bv8>)
}
