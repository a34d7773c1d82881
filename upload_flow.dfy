/** The decisions the upload callbacks take on the codes the storage client reports. */
module UploadFlow {

  /** The HTTP status the object-storage upload reports on success. */
  const UploadOk: int := 200

  /** What the service does with one `(code, done)` report from the upload. */
  datatype UploadStep =
    | ReportFailure          // finished with an error status: `onUploadResult(false)`, no preview
    | StartPreview           // finished successfully: go on to `previewFile`
    | ReportProgress(percent: int)   // still running: `onUploadProgress(code)`

  /** The dispatch of the `uploadObject` completion callback. */
  function UploadDispatch(code: int, done: bool): (step: UploadStep)
    ensures step == ReportFailure <==> done && code != UploadOk
    ensures step == StartPreview <==> done && code == UploadOk
    ensures step.ReportProgress? <==> !done
    ensures step.ReportProgress? ==> step.percent == code
  {
    if !done then ReportProgress(code)
    else if code != UploadOk then ReportFailure
    else StartPreview
  }

  /** The signature fetch succeeded exactly when the response code is zero. */
  predicate SignatureOk(code: int)
  {
    code == 0
  }
}
