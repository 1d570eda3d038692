/** Facts about one row and what a transaction writes over it. */
module Rows {
  import opened Basics
  import opened Model
  import opened Deadline
  import opened Lifecycle
  import opened Invariant
  import opened Moves

  // u may replace row: in order by itself and a legal successor.
  predicate Replaces(cfg: Config, row: Task, u: Task) {
    RowOk(cfg, u) && Precedes(row, u)
  }

  lemma StartRow(cfg: Config, row: Task, a: Addr, now: int, timeout: nat, files: seq<Byte>)
    requires RowOk(cfg, row) && row.status.Queued? && row.selected.None?
    ensures Replaces(cfg, row, StartedRow(row, a, now, timeout, files))
  {}

  lemma ReportRow(cfg: Config, row: Task, to: TaskStatus, score: seq<Byte>, now: int)
    requires RowOk(cfg, row) && row.status.Started? && (to.ScoreReady? || to.ErrorReported?)
    ensures Replaces(cfg, row, ReportedRow(row, to, score, now, TransitionDeadline(cfg, row, to, now)))
    ensures TransitionDeadline(cfg, row, to, now).Some?
  {}

  lemma AcceptRow(cfg: Config, row: Task, t: Task, to: TaskStatus, now: int)
    requires RowOk(cfg, row) && row.status.ScoreReady? && CopyOf(t, row)
    requires if to.GroupValidated? then GroupMember(t) && t.qos.Some? && t.qos.value > 0
             else to.Validated? && t.taskId == Some([t.key])
    ensures Replaces(cfg, row, AcceptedRow(row, t, to, now, TransitionDeadline(cfg, t, to, now)))
    ensures TransitionDeadline(cfg, t, to, now).Some?
  {}

  lemma RefundRow(cfg: Config, row: Task, t: Task, now: int)
    requires RowOk(cfg, row) && row.status.ScoreReady? && CopyOf(t, row) && row.selected.Some?
    requires GroupMember(t) && t.qos.Some? && t.qos.value > 0
    ensures Replaces(cfg, row, RefundedRow(row, t, now))
  {}

  lemma InvalidateRow(cfg: Config, row: Task, t: Task, now: int)
    requires RowOk(cfg, row) && Running(row.status) && CopyOf(t, row) && row.selected.Some? && GroupMember(t)
    ensures Replaces(cfg, row, InvalidatedRow(row, t, now))
  {}

  lemma SlashRow(cfg: Config, row: Task)
    requires RowOk(cfg, row) && Running(row.status)
    ensures Replaces(cfg, row, SlashedRow(row))
  {}

  lemma AbortRow(cfg: Config, row: Task, t: Task)
    requires RowOk(cfg, row) && !Terminal(row.status) && CopyOf(t, row) && Aborting(t)
    ensures Replaces(cfg, row, AbortedRow(row, t))
  {}

  lemma SucceedRow(cfg: Config, row: Task, grouped: bool)
    requires RowOk(cfg, row) && (if grouped then row.status.GroupValidated? else row.status.Validated?) &&
               row.selected.Some?
    ensures Replaces(cfg, row, SucceededRow(row, grouped))
  {}
}
