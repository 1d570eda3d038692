/** The relay's rows: inference tasks, nodes, vesting records and ledger events. */
module Model {
  import opened Basics

  // A task row's numeric id and its commitment are one identifier here.
  type Key = nat
  type Addr = string

  // A revealed task id, written as the tasks it names: one task, or a group of three.
  type TaskId = seq<Key>

  type Byte = x: int | 0 <= x < 256

  datatype TaskStatus =
    | Queued
    | Started
    | ParametersUploaded
    | ErrorReported
    | ScoreReady
    | Validated
    | GroupValidated
    | EndInvalidated
    | EndSuccess
    | EndAborted
    | EndGroupRefund
    | EndGroupSuccess

  datatype TaskType = SD | LLM | SDFTLora

  datatype AbortReason =
    | NoReason
    | Timeout
    | ModelDownloadFailed
    | IncorrectResult
    | TaskFeeTooLow
    | GroupTimeout
    | TaskErrorReported
    | CreatorCancelled
    | CreatorValidationTimeout
    | ResultUploadTimeout
    | NodeSlashed
    | ModelNotAllowed

  datatype Task = Task(
    key: Key,
    creator: Addr,
    fee: nat,
    kind: TaskType,
    createTime: Option<int>,
    queueTimeout: nat,
    timeout: nat,
    status: TaskStatus,
    selected: Option<Addr>,
    taskId: Option<TaskId>,
    reason: AbortReason,
    score: seq<Byte>,
    qos: Option<nat>,
    files: seq<Byte>,
    startTime: Option<int>,
    scoreTime: Option<int>,
    validatedTime: Option<int>,
    deadlineAt: Option<int>)

  predicate Terminal(s: TaskStatus) {
    s.EndInvalidated? || s.EndSuccess? || s.EndAborted? || s.EndGroupRefund? || s.EndGroupSuccess?
  }

  // Selected a node and not ended: the statuses in which a node works for the task.
  predicate Running(s: TaskStatus) {
    !s.Queued? && !Terminal(s)
  }

  datatype NodeStatus = Quit | Available | Busy | PendingPause | PendingQuit | Paused

  datatype Node = Node(status: NodeStatus, current: Option<Key>)

  // The statuses in which a node holds a current task.
  predicate Holding(s: NodeStatus) {
    s.Busy? || s.PendingPause? || s.PendingQuit?
  }

  datatype VestingStatus = Active | Completed | Deprecated

  datatype Vesting = Vesting(
    address: Addr,
    total: nat,
    released: nat,
    startTime: int,
    durationDays: nat,
    status: VestingStatus,
    slashed: bool)

  /** What an event row's reason column says; the event type is its constructor. */
  datatype Reason =
    | TaskPayment(task: Key)
    | TaskRefund(task: Key)
    | TaskIncome(task: Key)
    | DaoTaskShare(task: Key)
    | UserDelegation(task: Key, user: Addr)
    | Deposit(tx: string, network: string)
    | Withdraw(record: nat)
    | WithdrawRefund(record: nat)
    | WithdrawFeeIncome(record: nat)
    | VestingCreated(vesting: nat)
    | VestingRelease(vesting: nat, from: nat, to: nat)

  datatype Event = Event(reason: Reason, address: Addr, amount: nat)

  predicate Debit(e: Event) {
    e.reason.TaskPayment? || e.reason.Withdraw?
  }

  // A node's delegation view when income is paid to it.
  datatype Split = Split(share: nat, delegators: seq<(Addr, nat)>) {
    predicate Valid() {
      && share <= 100
      && (delegators != [] ==> Sum(Stakes(delegators)) > 0)
      && forall i, j | 0 <= i < j < |delegators| :: delegators[i].0 != delegators[j].0
    }
  }

  function Stakes(ds: seq<(Addr, nat)>): (r: seq<nat>)
    ensures |r| == |ds|
  {
    seq(|ds|, i requires 0 <= i < |ds| => ds[i].1)
  }

  type Splits = m: map<Addr, Split> | forall a | a in m :: m[a].Valid()

  // A node without a delegation view has no delegators.
  function SplitOf(m: Splits, a: Addr): (s: Split)
    ensures s.Valid() && (if a in m then s == m[a] else s.delegators == [])
  {
    if a in m then m[a] else Split(0, [])
  }

  datatype DepositTx = DepositTx(sender: Addr, amount: nat)

  // Configuration and the finalised chain, both fixed over a run.
  datatype ConfigRow = ConfigRow(
    defaultQueueTimeout: nat,
    appValidationTimeout: nat,
    resultUploadTimeout: nat,
    distanceThreshold: nat,
    daoPercent: nat,
    daoAddress: Addr,
    withdrawFeeAddress: Addr,
    deposits: map<(string, string), DepositTx>)

  type Config = c: ConfigRow | c.daoPercent <= 100
    witness ConfigRow(0, 0, 0, 0, 0, "", "", map[])
}
