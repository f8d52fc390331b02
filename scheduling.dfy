/**
 * The master's scheduler and node registry: the worker nodes it knows
 * (a list and an index by unique node id), the jobs it holds (each a
 * list of tasks), a greedy pass that pairs the first task still to do
 * with the first free node, and the handling of the nodes' reports.
 */
module Scheduling {
  import Common

  /** A unit of work of a job, as the master tracks it: its status and its progress in percent. */
  class Task {
    const taskId: int
    const jobId: string
    var status: Common.Status
    var progress: int

    constructor (taskId: int, jobId: string, status: Common.Status)
      ensures this.taskId == taskId && this.jobId == jobId
      ensures this.status == status && progress == 0
    {
      this.taskId := taskId;
      this.jobId := jobId;
      this.status := status;
      progress := 0;
    }
  }

  /** A worker node: its name, the id the master gave it, its status and the task it runs, if any. */
  class Node {
    const name: string
    var unid: string
    var status: Common.Status
    var currentTask: Task?

    constructor (name: string, unid: string, status: Common.Status)
      ensures this.name == name && this.unid == unid && this.status == status
      ensures currentTask == null
    {
      this.name := name;
      this.unid := unid;
      this.status := status;
      currentTask := null;
    }
  }

  // ---------------------------------------------------------------------
  // Specification of the scheduling pass
  // ---------------------------------------------------------------------

  /** All tasks of all jobs, job after job, each job's tasks in order. */
  function Flatten(jobs: seq<seq<Task>>): seq<Task>
  {
    if jobs == [] then [] else jobs[0] + Flatten(jobs[1..])
  }

  /** Where the first task still to do sits: past the end when no task is to do. */
  function TodoIndex(ts: seq<Task>): (k: nat)
    reads ts
    ensures k <= |ts|
    ensures forall i :: 0 <= i < k ==> ts[i].status != Common.JOB_TODO
    ensures k < |ts| ==> ts[k].status == Common.JOB_TODO
  {
    if ts == [] then 0
    else if ts[0].status == Common.JOB_TODO then 0
    else 1 + TodoIndex(ts[1..])
  }

  /** Searching two lists one after the other finds what the first holds, else what the second holds. */
  lemma TodoIndexAppend(a: seq<Task>, b: seq<Task>)
    ensures TodoIndex(a + b) == if TodoIndex(a) < |a| then TodoIndex(a) else |a| + TodoIndex(b)
  {
    var ab := a + b;
    assert forall i :: 0 <= i < |a| ==> ab[i] == a[i];
    assert forall i :: |a| <= i < |ab| ==> ab[i] == b[i - |a|];
    var k := TodoIndex(ab);
    if TodoIndex(a) < |a| {
      assert ab[TodoIndex(a)].status == Common.JOB_TODO;
    } else if TodoIndex(b) < |b| {
      assert ab[|a| + TodoIndex(b)].status == Common.JOB_TODO;
    }
  }

  /** The task a scan of the jobs in order, and of each job's tasks in order, stops at. */
  function NextTodo(jobs: seq<seq<Task>>): Task?
    reads set j, i | 0 <= j < |jobs| && 0 <= i < |jobs[j]| :: jobs[j][i]
  {
    if jobs == [] then null
    else
      var k := TodoIndex(jobs[0]);
      if k < |jobs[0]| then jobs[0][k] else NextTodo(jobs[1..])
  }

  /** The scan finds the first task still to do among all tasks of all jobs, job after job. */
  lemma {:induction false} NextTodoIsFirst(jobs: seq<seq<Task>>)
    ensures var ts := Flatten(jobs);
      NextTodo(jobs) == if TodoIndex(ts) < |ts| then ts[TodoIndex(ts)] else null
  {
    if jobs != [] {
      NextTodoIsFirst(jobs[1..]);
      TodoIndexAppend(jobs[0], Flatten(jobs[1..]));
      var ts := Flatten(jobs);
      if TodoIndex(jobs[0]) == |jobs[0]| && TodoIndex(ts) < |ts| {
        assert ts[TodoIndex(ts)] == Flatten(jobs[1..])[TodoIndex(Flatten(jobs[1..]))];
      }
    }
  }

  /** Where the first free node sits: past the end when no node is free. */
  function FreeIndex(nodes: seq<Node>): (k: nat)
    reads nodes
    ensures k <= |nodes|
    ensures forall i :: 0 <= i < k ==> nodes[i].status != Common.FREE
    ensures k < |nodes| ==> nodes[k].status == Common.FREE
  {
    if nodes == [] then 0
    else if nodes[0].status == Common.FREE then 0
    else 1 + FreeIndex(nodes[1..])
  }

  /** The first free node, or null when no node is free. */
  function FirstFree(nodes: seq<Node>): (n: Node?)
    reads nodes
    ensures n == null <==> forall i :: 0 <= i < |nodes| ==> nodes[i].status != Common.FREE
    ensures n != null ==> n.status == Common.FREE && n in nodes
  {
    var k := FreeIndex(nodes);
    if k < |nodes| then nodes[k] else null
  }

  /**
   * What one scheduling pass dispatches: the next task to do with the
   * first free node, when there are both; nothing otherwise.
   */
  function PassOf(jobs: seq<seq<Task>>, nodes: seq<Node>): (pass: seq<(Task, Node)>)
    reads set j, i | 0 <= j < |jobs| && 0 <= i < |jobs[j]| :: jobs[j][i]
    reads nodes
    ensures |pass| <= 1
    ensures |pass| == 1 <==> NextTodo(jobs) != null && FirstFree(nodes) != null
    ensures |pass| == 1 ==> pass[0].1.status == Common.FREE && pass[0].1 in nodes
  {
    var t := NextTodo(jobs);
    var n := FirstFree(nodes);
    if t != null && n != null then [(t, n)] else []
  }

  /**
   * A pass happens exactly when some task of some job is still to do and
   * some node is free, and then it hands out the first task still to do,
   * job after job, to the first free node.
   */
  lemma PassIsGreedy(jobs: seq<seq<Task>>, nodes: seq<Node>)
    ensures var ts := Flatten(jobs);
      && (|PassOf(jobs, nodes)| == 1 <==>
            (exists i :: 0 <= i < |ts| && ts[i].status == Common.JOB_TODO)
            && (exists i :: 0 <= i < |nodes| && nodes[i].status == Common.FREE))
      && (|PassOf(jobs, nodes)| == 1 ==>
            PassOf(jobs, nodes)[0] == (ts[TodoIndex(ts)], nodes[FreeIndex(nodes)]))
  {
    NextTodoIsFirst(jobs);
  }

  /** A node that is not free is never chosen by a pass. */
  lemma PassAvoidsBusy(jobs: seq<seq<Task>>, nodes: seq<Node>, n: Node)
    requires n.status != Common.FREE
    ensures forall k :: 0 <= k < |PassOf(jobs, nodes)| ==> PassOf(jobs, nodes)[k].1 != n
  {
  }

  /** The list without the first occurrence of x (the whole list if x is absent). */
  function RemoveFirst(nodes: seq<Node>, x: Node): seq<Node>
  {
    if nodes == [] then []
    else if nodes[0] == x then nodes[1..]
    else [nodes[0]] + RemoveFirst(nodes[1..], x)
  }

  /** No node appears twice. */
  predicate Distinct(nodes: seq<Node>) {
    forall i, j :: 0 <= i < j < |nodes| ==> nodes[i] != nodes[j]
  }

  /**
   * Removing a node from a list without repeats drops exactly that node,
   * keeps every other node in order, and keeps the list without repeats.
   */
  lemma {:induction false} RemoveFirstSpec(nodes: seq<Node>, x: Node)
    requires Distinct(nodes)
    ensures x in nodes ==> |RemoveFirst(nodes, x)| == |nodes| - 1
    ensures x !in nodes ==> RemoveFirst(nodes, x) == nodes
    ensures forall y :: y in RemoveFirst(nodes, x) <==> y in nodes && y != x
    ensures Distinct(RemoveFirst(nodes, x))
  {
    if nodes != [] {
      assert Distinct(nodes[1..]) by {
        forall i, j | 0 <= i < j < |nodes[1..]|
          ensures nodes[1..][i] != nodes[1..][j]
        {
          assert nodes[1..][i] == nodes[i + 1] && nodes[1..][j] == nodes[j + 1];
        }
      }
      RemoveFirstSpec(nodes[1..], x);
      if nodes[0] == x {
        assert x !in nodes[1..] by {
          forall j | 0 <= j < |nodes[1..]|
            ensures nodes[1..][j] != x
          {
            assert nodes[1..][j] == nodes[j + 1];
          }
        }
      } else {
        var rest := RemoveFirst(nodes[1..], x);
        assert nodes[0] !in nodes[1..] by {
          forall j | 0 <= j < |nodes[1..]|
            ensures nodes[1..][j] != nodes[0]
          {
            assert nodes[1..][j] == nodes[j + 1];
          }
        }
        assert x in nodes <==> x in nodes[1..];
        var r := [nodes[0]] + rest;
        forall i, j | 0 <= i < j < |r|
          ensures r[i] != r[j]
        {
          assert r[j] == rest[j - 1];
          if i > 0 {
            assert r[i] == rest[i - 1];
          }
        }
        if x !in nodes {
          assert nodes == [nodes[0]] + nodes[1..];
        }
      }
    }
  }

  // ---------------------------------------------------------------------
  // The master
  // ---------------------------------------------------------------------

  class Master {
    var nodes: seq<Node>
    var nodesByUNID: map<string, Node>
    var jobs: seq<seq<Task>>
    /** Every (task, node) pair handed to a dispatcher, in order. */
    ghost var dispatched: seq<(Task, Node)>

    /** The node list has no repeats. */
    ghost predicate Valid()
      reads this
    {
      Distinct(nodes)
    }

    /** The pass the master would make now. */
    ghost function Pass(): seq<(Task, Node)>
      reads this, nodes
      reads set j, i | 0 <= j < |jobs| && 0 <= i < |jobs[j]| :: jobs[j][i]
    {
      PassOf(jobs, nodes)
    }

    constructor ()
      ensures Valid()
      ensures nodes == [] && nodesByUNID == map[] && jobs == [] && dispatched == []
    {
      nodes := [];
      nodesByUNID := map[];
      jobs := [];
      dispatched := [];
    }

    /** The node registered under an id, or null when there is none. */
    function IdentifySender(nodeId: string): (n: Node?)
      reads this
      ensures n != null <==> nodeId in nodesByUNID
      ensures n != null ==> n == nodesByUNID[nodeId]
    {
      if nodeId in nodesByUNID then nodesByUNID[nodeId] else null
    }

    /** Append a job (a list always accepts it), then make one scheduling pass. */
    method AddJob(j: seq<Task>) returns (success: bool)
      modifies this`jobs, this`dispatched
      ensures success
      ensures jobs == old(jobs) + [j]
      ensures dispatched == old(dispatched) + Pass()
    {
      jobs := jobs + [j];
      var _ := UpdateNodesWork();
      success := true;
    }

    /** Scan the jobs in order, and each job's tasks in order, for the first task still to do. */
    method GetNextTask() returns (task: Task?)
      ensures task == NextTodo(jobs)
    {
      var j := 0;
      while j < |jobs|
        invariant 0 <= j <= |jobs|
        invariant NextTodo(jobs) == NextTodo(jobs[j..])
      {
        var tasks := jobs[j];
        assert jobs[j..][0] == tasks && jobs[j..][1..] == jobs[j + 1..];
        var i := 0;
        while i < |tasks|
          invariant 0 <= i <= |tasks|
          invariant forall k :: 0 <= k < i ==> tasks[k].status != Common.JOB_TODO
        {
          if tasks[i].status == Common.JOB_TODO {
            return tasks[i];
          }
          i := i + 1;
        }
        j := j + 1;
      }
      return null;
    }

    /** Scan the nodes in order for the first free one. */
    method GetBestFreeNode() returns (node: Node?)
      ensures node == FirstFree(nodes)
    {
      var i := 0;
      while i < |nodes|
        invariant 0 <= i <= |nodes|
        invariant forall k :: 0 <= k < i ==> nodes[k].status != Common.FREE
      {
        if nodes[i].status == Common.FREE {
          return nodes[i];
        }
        i := i + 1;
      }
      return null;
    }

    /**
     * One greedy pass: when there is a task to do and a free node, hand
     * the first such task to the first such node, and report whether
     * anything was dispatched.
     */
    method UpdateNodesWork() returns (any: bool)
      modifies this`dispatched
      ensures any <==> |Pass()| == 1
      ensures dispatched == old(dispatched) + Pass()
    {
      var nextTask := GetNextTask();
      if nextTask == null {
        return false;
      }
      var node := GetBestFreeNode();
      if node == null {
        return false;
      }
      any := Dispatch(nextTask, node);
    }

    /** Hand a task to a node; the hand-over runs on its own and changes nothing here. */
    method Dispatch(task: Task, node: Node) returns (started: bool)
      modifies this`dispatched
      ensures started
      ensures dispatched == old(dispatched) + [(task, node)]
    {
      dispatched := dispatched + [(task, node)];
      started := true;
    }

    /**
     * Register a node not yet in the list: mark it not connected, give it
     * the fresh id, append it, index it by that id, and make one pass. A
     * node already in the list is refused and nothing changes.
     */
    method AddNode(n: Node, freshUnid: string) returns (added: bool)
      requires Valid()
      modifies this`nodes, this`nodesByUNID, this`dispatched, n`status, n`unid
      ensures Valid()
      ensures added <==> n !in old(nodes)
      ensures !added ==> nodes == old(nodes) && nodesByUNID == old(nodesByUNID) && dispatched == old(dispatched)
                         && n.status == old(n.status) && n.unid == old(n.unid)
      ensures added ==> && n.status == Common.NOT_CONNECTED && n.unid == freshUnid
                        && nodes == old(nodes) + [n]
                        && nodesByUNID == old(nodesByUNID)[freshUnid := n]
                        && dispatched == old(dispatched) + Pass()
      ensures forall k :: |old(dispatched)| <= k < |dispatched| ==> dispatched[k].1 != n
    {
      if n in nodes {
        return false;
      }
      n.status := Common.NOT_CONNECTED;
      n.unid := freshUnid;
      nodes := nodes + [n];
      nodesByUNID := nodesByUNID[n.unid := n];
      PassAvoidsBusy(jobs, nodes, n);
      var _ := UpdateNodesWork();
      return true;
    }

    /**
     * Set the status of the node's task, if it has one; a completed task
     * is detached from the node; then make one pass. Without a task
     * nothing changes. The answer is always false.
     */
    method UpdateNodeTask(n: Node, updateStatus: Common.Status) returns (r: bool)
      modifies n`currentTask, n.currentTask, this`dispatched
      ensures !r
      ensures old(n.currentTask) == null ==> n.currentTask == null && dispatched == old(dispatched)
      ensures old(n.currentTask) != null ==>
        && old(n.currentTask).status == updateStatus
        && old(n.currentTask).progress == old(n.currentTask.progress)
        && n.currentTask == (if updateStatus == Common.JOB_COMPLETED then null else old(n.currentTask))
        && dispatched == old(dispatched) + Pass()
    {
      var task := n.currentTask;
      if task != null {
        task.status := updateStatus;
        if updateStatus == Common.JOB_COMPLETED {
          task.status := Common.JOB_COMPLETED;
          n.currentTask := null;
        }
        var _ := UpdateNodesWork();
      }
      return false;
    }

    /**
     * Take the reported status as the sender's status, then make one
     * pass. The sender must be registered: the lookup's result is used
     * unchecked.
     */
    method ReadStatusReport(report: Common.StatusReport) returns (r: bool)
      requires report.unid in nodesByUNID
      modifies IdentifySender(report.unid)`status, this`dispatched
      ensures r
      ensures nodesByUNID[report.unid].status == report.status
      ensures dispatched == old(dispatched) + Pass()
    {
      var s := report.status;
      var sender := IdentifySender(report.unid);
      sender.status := s;
      var _ := UpdateNodesWork();
      return true;
    }

    /**
     * Record a task's progress on the sender's current task; at exactly
     * 100 percent the task is completed and detached. An unknown sender
     * is refused and nothing changes. A registered sender must have a
     * current task: it is used unchecked.
     */
    method ReadTaskReport(report: Common.TaskReport) returns (r: bool)
      requires report.unid in nodesByUNID ==> nodesByUNID[report.unid].currentTask != null
      modifies if report.unid in nodesByUNID then {nodesByUNID[report.unid]} else {}
      modifies if report.unid in nodesByUNID then {nodesByUNID[report.unid].currentTask} else {}
      modifies this`dispatched
      ensures r <==> report.unid in nodesByUNID
      ensures !r ==> dispatched == old(dispatched)
      ensures r ==> var sender := nodesByUNID[report.unid];
        var task := old(sender.currentTask);
        && sender.status == old(sender.status) && sender.unid == old(sender.unid)
        && task.progress == report.progress
        && (report.progress == 100 ==>
              task.status == Common.JOB_COMPLETED && sender.currentTask == null
              && dispatched == old(dispatched) + Pass())
        && (report.progress != 100 ==>
              task.status == old(task.status) && sender.currentTask == task
              && dispatched == old(dispatched))
    {
      var progress := report.progress;
      var sender := IdentifySender(report.unid);
      if sender == null {
        return false;
      }
      sender.currentTask.progress := progress;
      if progress == 100 {
        var _ := UpdateNodeTask(sender, Common.JOB_COMPLETED);
      }
      return true;
    }

    /**
     * Drop a node from the list, answering whether it was there. The id
     * index is left as it is: its entry is looked up by the node, not by
     * the node's id, so nothing is found to remove.
     */
    method RemoveNode(n: Node) returns (removed: bool)
      requires Valid()
      modifies this`nodes
      ensures Valid()
      ensures removed <==> n in old(nodes)
      ensures nodes == RemoveFirst(old(nodes), n)
      ensures n !in nodes
      ensures forall id :: IdentifySender(id) == old(IdentifySender(id))
    {
      RemoveFirstSpec(nodes, n);
      removed := n in nodes;
      nodes := RemoveFirst(nodes, n);
    }

    /**
     * A node asks to leave: when its id is registered, put its task (if
     * any) back to do, which makes one pass while the node is still
     * listed, then drop it from the list. An unknown id changes nothing.
     */
    method NodeShutdown(unid: string)
      requires Valid()
      modifies this`nodes, this`dispatched
      modifies if unid in nodesByUNID then {nodesByUNID[unid]} else {}
      modifies if unid in nodesByUNID then {nodesByUNID[unid].currentTask} else {}
      ensures Valid()
      ensures unid !in nodesByUNID ==> nodes == old(nodes) && dispatched == old(dispatched)
      ensures unid in nodesByUNID ==> var sender := nodesByUNID[unid];
        && sender !in nodes
        && nodes == RemoveFirst(old(nodes), sender)
        && sender.status == old(sender.status) && sender.unid == old(sender.unid)
        && sender.currentTask == old(sender.currentTask)
        && (old(sender.currentTask) == null ==> dispatched == old(dispatched))
        && (old(sender.currentTask) != null ==>
              old(sender.currentTask).status == Common.JOB_TODO
              && old(sender.currentTask).progress == old(sender.currentTask.progress)
              && dispatched == old(dispatched) + PassOf(jobs, old(nodes)))
    {
      var sender := IdentifySender(unid);
      if sender != null {
        var toCancel := sender.currentTask;
        if toCancel != null {
          var _ := UpdateNodeTask(sender, Common.JOB_TODO);
        }
        var _ := RemoveNode(sender);
      }
    }
  }
}
