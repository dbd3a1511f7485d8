/** The task statuses the registry stores: the trainer's TaskStatus members the
    routes compare with (CREATED, RUNNING, FINISHED, TERMINATED) and the three
    members of DabiTaskStatus (TRAIN_FAILED = 4, UPLOADED = 5, UPLOAD_FAILED = 6). */
module Statuses {

  datatype Status =
    | Created | Running | Finished | Terminated
    | TrainFailed | Uploaded | UploadFailed

  /** The enum member name, as reported by `status.name`. */
  function Name(s: Status): string {
    match s
    case Created => "CREATED"
    case Running => "RUNNING"
    case Finished => "FINISHED"
    case Terminated => "TERMINATED"
    case TrainFailed => "TRAIN_FAILED"
    case Uploaded => "UPLOADED"
    case UploadFailed => "UPLOAD_FAILED"
  }

  /** The value reported by `status.value`. The trainer's enum values are
      defined outside this model, so they stay symbolic. */
  datatype StatusValue = Code(code: int) | TrainerCode(member: Status)

  /** The statuses that belong to DabiTaskStatus rather than to the trainer. */
  predicate IsUploadStatus(s: Status) {
    s == TrainFailed || s == Uploaded || s == UploadFailed
  }

  /** The value reported by `status.value`: the integer a DabiTaskStatus
      member was declared with, or the trainer's member itself. */
  function ValueOf(s: Status): (v: StatusValue)
    ensures v.Code? <==> IsUploadStatus(s)
    ensures s == TrainFailed ==> v == Code(4)
    ensures s == Uploaded ==> v == Code(5)
    ensures s == UploadFailed ==> v == Code(6)
    ensures v.TrainerCode? ==> v.member == s
  {
    match s
    case TrainFailed => Code(4)
    case Uploaded => Code(5)
    case UploadFailed => Code(6)
    case _ => TrainerCode(s)
  }

  /** Distinct statuses report distinct names and distinct values. */
  lemma NamesAndValuesIdentify(a: Status, b: Status)
    ensures Name(a) == Name(b) ==> a == b
    ensures ValueOf(a) == ValueOf(b) ==> a == b
  {
  }
}
