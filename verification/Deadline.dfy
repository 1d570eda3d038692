/** When a task must have left its current status. */
module Deadline {
  import opened Basics
  import opened Model

  const SDFT_QUEUE_SECONDS := 180

  predicate RelayOwned(kind: TaskType) {
    kind.SD? || kind.LLM?
  }

  function After(t: Option<int>, seconds: nat): Option<int> {
    if t.Some? then Some(t.value + seconds) else None
  }

  // Creation time plus the queue wait of the task's type, whatever its status.
  function QueueDeadline(cfg: Config, t: Task): Option<int> {
    if t.kind.SDFTLora? then After(t.createTime, SDFT_QUEUE_SECONDS + t.timeout)
    else After(t.createTime, if t.queueTimeout == 0 then cfg.defaultQueueTimeout else t.queueTimeout)
  }

  /** The deadline of the task's current status, with the reason to abort it for missing it. */
  function TaskDeadline(cfg: Config, t: Task): Option<(int, AbortReason)> {
    var (at, why) :=
      if t.status.Queued? then (QueueDeadline(cfg, t), Timeout)
      else if Terminal(t.status) then (None, NoReason)
      else if !RelayOwned(t.kind) then (After(t.startTime, t.timeout), Timeout)
      else match t.status {
        case Started | ParametersUploaded => (After(t.startTime, t.timeout), Timeout)
        case ScoreReady | ErrorReported => (After(t.scoreTime, cfg.appValidationTimeout), CreatorValidationTimeout)
        case _ => (After(t.validatedTime, cfg.resultUploadTimeout), ResultUploadTimeout)
      };
    if at.Some? then Some((at.value, why)) else None
  }

  function DeadlineAt(cfg: Config, t: Task): Option<int> {
    var d := TaskDeadline(cfg, t);
    if d.Some? then Some(d.value.0) else None
  }

  // The deadline column written together with a move to the given status.
  function TransitionDeadline(cfg: Config, t: Task, to: TaskStatus, now: int): Option<int> {
    DeadlineAt(cfg,
               match to
               case ScoreReady | ErrorReported => t.(status := to, scoreTime := Some(now))
               case Validated | GroupValidated => t.(status := to, validatedTime := Some(now))
               case _ => t.(status := to))
  }

  // What the scan of the deadline column selects.
  predicate Due(t: Task, now: int) {
    !Terminal(t.status) && t.deadlineAt.Some? && t.deadlineAt.value <= now
  }

  // What an abort for timeout checks on the copy it holds.
  predicate TimedOut(cfg: Config, t: Task, now: int) {
    TaskDeadline(cfg, t).Some? && t.deadlineAt.Some? && t.deadlineAt.value <= now
  }
}
