/** Where requests and ends of tasks take a node, over every run. */
module Nodes {
  import opened Basics
  import opened Model
  import opened Settlement
  import opened Lifecycle
  import opened Invariant
  import opened Vestings
  import opened Ledger
  import opened Audit
  import opened Steps
  import opened Effects
  import opened GroupEffects
  import opened Payouts
  import opened Rollback
  import opened Relay

  // Where one request may take a node: a node with a pending pause or quit only stays, or is done with its task.
  predicate NodeMove(h: Handler, a: Addr, n: Node, n': Node) {
    n' == n ||
    match n.status
    case Quit => h == AskNode(a, Join) && n' == Node(Available, n.current)
    case Available => n'.status in {Busy, Paused, Quit}
    case Busy =>
      || (n'.status in {PendingPause, PendingQuit} && n'.current == n.current)
      || (n'.status in {Available, Quit} && n'.current == None)
    case PendingPause => n'.status in {Paused, Quit} && n'.current == None
    case PendingQuit => n' == Node(Quit, None)
    case Paused => n'.status == Quit || (h == AskNode(a, Resume) && n'.status == Available)
  }

  ghost predicate NodesMove(h: Handler, w: World, r: Tx) {
    r.Ok? ==> forall a | a in w.nodes :: a in r.value.nodes && NodeMove(h, a, w.nodes[a], r.value.nodes[a])
  }

  lemma NodeStays(h: Handler, w: World, r: Tx)
    requires r.Ok? ==> r.value.nodes == w.nodes
    ensures NodesMove(h, w, r)
  {}

  lemma FreedMoves(cfg: Config, h: Handler, w: World, t: Task, kickout: bool, r: Tx)
    requires Inv(cfg, w) && Stale(w, t) && Stands(w, t) && Running(t.status)
    requires r.Ok? ==> r.value.nodes == FreedBy(w, t, kickout)
    ensures NodesMove(h, w, r)
  {
    hide Inv;
    Standing(cfg, w, t);
  }

  lemma DecideMoves(cfg: Config, w: World, ids: TaskId, now: int, passive: bool, splits: Splits, kicked: set<Key>)
    requires Inv(cfg, w)
    ensures NodesMove(ValidateTasks(ids, now, passive, splits, kicked), w,
                      ValidateGroup(cfg, w, ids, now, passive, splits, kicked))
  {
    hide Inv, ValidateGroup, Decision.Of, RefundsOf, GrantsFrozen, MemberJudged, NodeMove;
    var r := ValidateGroup(cfg, w, ids, now, passive, splits, kicked);
    if r.Ok? {
      var d := GroupEffect(cfg, w, ids, now, passive, splits, kicked);
      forall a | a in w.nodes
        ensures a in r.value.nodes
        ensures NodeMove(ValidateTasks(ids, now, passive, splits, kicked), a, w.nodes[a], r.value.nodes[a])
      {
        if w.nodes[a].current.Some? && w.nodes[a].current.value in ids {
          MemberMoves(cfg, d, w, r.value, a, now, passive, kicked, ValidateTasks(ids, now, passive, splits, kicked));
        } else {
          NodeSame(ValidateTasks(ids, now, passive, splits, kicked), a, w.nodes[a]);
        }
      }
    }
  }

  lemma NodeSame(h: Handler, a: Addr, n: Node)
    ensures NodeMove(h, a, n, n)
  {}

  lemma MemberMoves(cfg: Config, d: Decision, w: World, w': World, a: Addr, now: int, passive: bool, kicked: set<Key>,
                    h: Handler)
    requires Inv(cfg, w) && a in w.nodes && w.nodes[a].current.Some? && w.nodes[a].current.value in d.next
    requires MemberJudged(cfg, d, w, w', w.nodes[a].current.value, now, passive, kicked)
    ensures a in w'.nodes && NodeMove(h, a, w.nodes[a], w'.nodes[a])
  {
    hide Settled, EventsOk, GroupsOk, RowsOk, Judged, TaskLink;
    assert NodeLink(w.tasks, a, w.nodes[a]);
  }

  lemma StartMoves(cfg: Config, w: World, t: Task, a: Addr, now: int, computed: nat, files: seq<Byte>)
    requires Inv(cfg, w) && Stale(w, t)
    ensures NodesMove(StartTask(t, a, now, computed, files), w, Start(cfg, w, t, a, now, computed, files))
  {
    hide Inv, Start, Stale;
    StartEffect(cfg, w, t, a, now, computed, files);
  }

  lemma SlashMoves(cfg: Config, w: World, a: Addr)
    requires Inv(cfg, w)
    ensures NodesMove(Slash(a), w, SlashNode(w, a))
  {
    hide Inv, SlashNode, Frozen;
    SlashEffect(cfg, w, a);
  }

  lemma RequestMoves(cfg: Config, w: World, a: Addr, q: NodeRequest)
    requires Inv(cfg, w)
    ensures NodesMove(AskNode(a, q), w, RequestNode(w, a, q))
  {
    hide Settled, EventsOk, GroupsOk, RowsOk, RequestNode;
    RequestEffect(cfg, w, a, q);
    if a in w.nodes {
      assert NodeLink(w.tasks, a, w.nodes[a]);
    }
  }

  /** Whatever request is answered: a node with a pending pause stays, or gives up its task to pause or quit; one with a
      pending quit stays, or gives up its task to quit; and only its own requests bring a node back. */
  lemma TransactMoves(cfg: Config, w: World, h: Handler)
    requires Inv(cfg, w) && forall t | t in Copies(h) :: Stale(w, t)
    ensures NodesMove(h, w, Transact(cfg, w, h))
  {
    hide Inv, Start, ReportScore, ReportError, ValidateSingle, ValidateGroup, Abort, Succeed, SlashNode, RequestNode,
         Stale, IncomeEvents, EarnedEvents, Trio.Parts, Trio.Scored, Trio.Total, Grouped, NodesMove;
    var r := Transact(cfg, w, h);
    match h {
      case StartTask(t, a, now, computed, files) => StartMoves(cfg, w, t, a, now, computed, files);
      case SubmitScore(t, score, now) =>
        ScoreEffect(cfg, w, t, score, now);
        NodeStays(h, w, r);
      case SubmitError(t, now) =>
        ErrorEffect(cfg, w, t, now);
        NodeStays(h, w, r);
      case ValidateTask(t, now, splits, kickout) =>
        ValidateSingleEffect(cfg, w, t, now, splits, kickout);
        if r.Ok? && t.status == ErrorReported {
          FreedMoves(cfg, h, w, t, kickout, r);
        } else {
          NodeStays(h, w, r);
        }
      case ValidateTasks(ids, now, passive, splits, kicked) => DecideMoves(cfg, w, ids, now, passive, splits, kicked);
      case AbortTask(t, reason, splits, kickout) =>
        AbortEffect(cfg, w, t, reason, splits, kickout);
        if r.Ok? && Running(t.status) {
          FreedMoves(cfg, h, w, t, kickout, r);
        } else {
          NodeStays(h, w, r);
        }
      case UploadResult(t, splits, kickout) =>
        var g, x, y, z := SucceedEffect(cfg, w, t, splits, kickout);
        if r.Ok? {
          FreedMoves(cfg, h, w, t, kickout, r);
        } else {
          NodeStays(h, w, r);
        }
      case Slash(a) => SlashMoves(cfg, w, a);
      case AskNode(a, request) => RequestMoves(cfg, w, a, request);
    }
  }

  // ---------- Every run ----------

  // A node on its way out, since it was n: it still holds its task, or it has paused or quit as it asked.
  predicate Leaving(n: Node, n': Node) {
    match n.status
    case PendingPause => n' == n || n'.status in {Paused, Quit}
    case PendingQuit => n' == n || n'.status == Quit
    case Paused => n'.status in {Paused, Quit}
    case Quit => n'.status == Quit
    case _ => true
  }

  predicate Returns(steps: seq<Step>, a: Addr) {
    exists i | 0 <= i < |steps| :: steps[i] == Handle(AskNode(a, Join)) || steps[i] == Handle(AskNode(a, Resume))
  }

  lemma StepMoves(cfg: Config, s: State, step: Step, a: Addr)
    requires RelayInv(cfg, s) && a in s.w.nodes
    ensures var s' := Next(cfg, s, step);
            && a in s'.w.nodes
            && (s'.w.nodes[a] == s.w.nodes[a] ||
                (step.Handle? && NodeMove(step.handler, a, s.w.nodes[a], s'.w.nodes[a])))
  {
    hide Inv, Transact, Leftover, PostAll, NewEvents, Chained, OthersOk, OnePending, Backed, Stale, Accepted, Rejected,
         ApplyAll, Processed, Tally, ShouldReleased, NodeMove, SlashVestings, RestoreVestings;
    if step.Handle? && Copies(step.handler) <= s.seen {
      assert forall t | t in Copies(step.handler) :: Stale(s.w, t);
      TransactMoves(cfg, s.w, step.handler);
    }
  }

  lemma LeavingOn(h: Handler, a: Addr, n: Node, n': Node, n'': Node)
    requires Leaving(n, n') && NodeMove(h, a, n', n'') && h != AskNode(a, Join) && h != AskNode(a, Resume)
    ensures Leaving(n, n'')
  {}

  lemma {:induction false} RunLeaves(cfg: Config, s: State, steps: seq<Step>, a: Addr)
    requires RelayInv(cfg, s) && a in s.w.nodes && !Returns(steps, a)
    ensures a in Run(cfg, s, steps).w.nodes && Leaving(s.w.nodes[a], Run(cfg, s, steps).w.nodes[a])
  {
    hide RelayInv, Next, Leaving, NodeMove;
    if steps == [] {
      LeavingStill(s.w.nodes[a]);
    } else {
      var front, step := steps[..|steps| - 1], steps[|steps| - 1];
      assert step == steps[|steps| - 1] && forall i | 0 <= i < |front| :: front[i] == steps[i];
      RunLeaves(cfg, s, front, a);
      RunKeeps(cfg, s, front);
      var before := Run(cfg, s, front);
      StepMoves(cfg, before, step, a);
      if Next(cfg, before, step).w.nodes[a] != before.w.nodes[a] {
        LeavingOn(step.handler, a, s.w.nodes[a], before.w.nodes[a], Next(cfg, before, step).w.nodes[a]);
      }
    }
  }

  lemma LeavingStill(n: Node)
    ensures Leaving(n, n)
  {}

  /** Over every run: a node that asked to pause or quit while it held a task takes no other, and has paused or quit
      once it no longer holds that one, until it asks to come back. */
  lemma LeavingNodesLeave(cfg: Config, s0: State, steps: seq<Step>, more: seq<Step>, a: Addr)
    requires Initial(s0) && a in Run(cfg, s0, steps).w.nodes && !Returns(more, a)
    ensures var nodes, nodes' := Run(cfg, s0, steps).w.nodes, Run(cfg, s0, steps + more).w.nodes;
            && a in nodes'
            && (nodes[a].status == PendingPause ==> nodes'[a] == nodes[a] || nodes'[a].status in {Paused, Quit})
            && (nodes[a].status == PendingQuit ==> nodes'[a] == nodes[a] || nodes'[a].status == Quit)
            && (nodes[a].status == Paused ==> nodes'[a].status in {Paused, Quit})
            && (nodes[a].status == Quit ==> nodes'[a].status == Quit)
  {
    hide RelayInv, Run, Initial;
    InitialKeeps(cfg, s0);
    RunKeeps(cfg, s0, steps);
    RunLeaves(cfg, Run(cfg, s0, steps), more, a);
    RunConcat(cfg, s0, steps, more);
  }
}
