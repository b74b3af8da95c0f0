/** The linked job list of MyShell/shell.c. */
module Jobs {
  import opened JobSpec

  class Job {
    var node: Record
    var next: Job?

    constructor (node: Record)
      ensures this.node == node && next == null
    {
      this.node := node;
      next := null;
    }
  }

  /** list is a chain of distinct cells, linked in order and null-terminated. */
  ghost predicate Chain(list: seq<Job>)
    reads list
  {
    Distinct(list) && forall i :: 0 <= i < |list| ==> Linked(list, i)
  }

  ghost predicate Linked(list: seq<Job>, i: nat)
    requires i < |list|
    reads list
  {
    list[i].next == CellAt(list, i + 1)
  }

  ghost predicate Distinct(list: seq<Job>) {
    forall i, j :: 0 <= i < j < |list| ==> list[i] != list[j]
  }

  lemma DistinctAt(list: seq<Job>, i: nat, j: nat)
    requires Distinct(list) && i < |list| && j < |list| && i != j
    ensures list[i] != list[j]
  {
  }

  lemma DistinctAppend(list: seq<Job>, cell: Job)
    requires Distinct(list) && cell !in list
    ensures Distinct(list + [cell])
  {
  }

  lemma DistinctRemove(list: seq<Job>, k: nat)
    requires Distinct(list) && k < |list|
    ensures Distinct(list[..k] + list[k + 1..])
  {
    var r := list[..k] + list[k + 1..];
    forall i, j | 0 <= i < j < |r|
      ensures r[i] != r[j]
    {
      DistinctAt(list, if i < k then i else i + 1, if j < k then j else j + 1);
    }
  }

  /** A cell and its successor after cell k has been taken out. */
  lemma Bypassed(list: seq<Job>, k: nat, i: nat)
    requires k < |list| && i < |list| - 1
    ensures var r, m := list[..k] + list[k + 1..], if i < k then i else i + 1;
      r[i] == list[m] && CellAt(r, i + 1) == CellAt(list, if i + 1 == k then k + 1 else m + 1)
  {
  }

  ghost function CellAt(list: seq<Job>, i: nat): Job? {
    if i < |list| then list[i] else null
  }

  ghost function Nodes(list: seq<Job>): (c: seq<Record>)
    reads list
    ensures |c| == |list|
  {
    seq(|list|, i requires 0 <= i < |list| reads list => list[i].node)
  }

  class JobTable {
    var head: Job?          // jobSet
    var isSuspended: bool
    var parentPid: int
    ghost var list: seq<Job>

    ghost predicate Valid()
      reads this, list
    {
      Chain(list) && head == CellAt(list, 0)
    }

    ghost function Cells(): set<Job>
      reads this`list
    {
      set j | j in list
    }

    ghost function Contents(): (c: seq<Record>)
      reads this, list
      ensures |c| == |list|
    {
      Nodes(list)
    }

    /** initStuff: the shell's own record. */
    constructor (shell: Record)
      ensures Valid() && Contents() == [shell] && !isSuspended && fresh(list)
    {
      head := new Job(shell);
      isSuspended := false;
      parentPid := 0;
      new;
      list := [head];
    }

    /** The walk to the last cell. */
    method LastCell() returns (temp: Job)
      requires Valid() && list != []
      ensures temp == list[|list| - 1]
    {
      temp := head;
      ghost var k := 0;
      while temp.next != null
        invariant 0 <= k < |list| && temp == list[k]
        decreases |list| - k
      {
        assert Linked(list, k);
        temp := temp.next;
        k := k + 1;
      }
      assert Linked(list, k);
    }

    /** Links a new cell behind the last one. */
    method Append(temp: Job, node: Record)
      requires Valid() && list != [] && temp == list[|list| - 1]
      modifies this`list, temp`next
      ensures Valid() && |list| == |old(list)| + 1 && old(list) <= list && fresh(list[|list| - 1])
      ensures Contents() == old(Contents()) + [node]
    {
      hide Distinct;
      var cell := new Job(node);
      DistinctAppend(list, cell);
      ghost var was, n := list, |list|;
      temp.next := cell;
      list := list + [cell];
      forall i | 0 <= i < n
        ensures Linked(list, i) && list[i].node == old(list[i].node)
      {
        assert list[i] == was[i] && old(Linked(list, i));
        if i < n - 1 {
          DistinctAt(was, i, n - 1);
        }
      }
      assert Nodes(list) == old(Nodes(list)) + [node];
    }

    /** insert. */
    method Insert(node: Record)
      requires Valid() && list != []
      modifies this`list, Cells()
      ensures Valid() && Contents() == Inserted(old(Contents()), node)
      ensures var c := old(Contents()); Contents() == if c[|c| - 1].pid == node.pid then c else c + [node]
      ensures fresh(Cells() - old(Cells()))
    {
      var temp := LastCell();
      assert temp in list && temp.node == Contents()[|list| - 1];
      if temp.node.pid != node.pid {
        Append(temp, node);
      }
    }

    /** findPID. */
    method FindPid(pid: int) returns (r: Job?)
      requires Valid()
      ensures r == CellAt(list, IndexOf(Contents(), pid))
      ensures forall k :: FirstOf(Contents(), k, pid) ==> r == list[k]
      ensures (forall k :: 0 <= k < |list| ==> Contents()[k].pid != pid) ==> r == null
    {
      var temp := head;
      ghost var k := 0;
      while temp != null
        invariant 0 <= k <= |list| && temp == CellAt(list, k)
        invariant forall i :: 0 <= i < k ==> list[i].node.pid != pid
        decreases |list| - k
      {
        if temp.node.pid == pid {
          IndexUnique(Contents(), pid, k);
          return temp;
        }
        assert Linked(list, k);
        temp := temp.next;
        k := k + 1;
      }
      return null;
    }

    /** findFG_STATUS. */
    method FindForeground() returns (pid: int)
      requires Valid() && list != []
      ensures pid == ForegroundPid(Contents())
      ensures forall k :: IsFirstForeground(Contents(), k) ==> pid == Contents()[k].pid
      ensures (forall k :: 1 <= k < |list| ==> Contents()[k].status != Foreground) ==> pid == -1
    {
      ForegroundIs(Contents());
      assert Linked(list, 0);
      var temp := head.next;
      ghost var k := 1;
      while temp != null
        invariant 1 <= k <= |list| && temp == CellAt(list, k)
        invariant ForegroundPid(Contents()) == ForegroundPid(Contents()[k - 1..])
        decreases |list| - k
      {
        assert Contents()[k - 1..][1..] == Contents()[k..];
        if temp.node.status == Foreground {
          return temp.node.pid;
        }
        assert Linked(list, k);
        temp := temp.next;
        k := k + 1;
      }
      return -1;
    }

    /** changeStatus. */
    method ChangeStatus(pid: int, status: Status)
      requires Valid()
      modifies Cells()
      ensures Valid() && Contents() == Changed(old(Contents()), pid, status)
      ensures var c := old(Contents());
        && (forall k :: FirstOf(c, k, pid) ==> Contents() == c[k := Record(pid, c[k].name, status, c[k].gid)])
        && ((forall k :: 0 <= k < |c| ==> c[k].pid != pid) ==> Contents() == c)
    {
      var temp := FindPid(pid);
      if temp != null {
        temp.node := temp.node.(status := status);
        assert forall i :: 0 <= i < |list| ==> Linked(list, i) == old(Linked(list, i));
      }
    }

    /** Takes the cell after temp, the k-th, out of the chain. */
    method UnlinkNext(temp: Job, del: Job, ghost k: nat)
      requires Valid() && k + 1 < |list| && temp == list[k] && del == list[k + 1]
      modifies this`list, temp`next, del`next
      ensures Valid() && list == old(list)[..k + 1] + old(list)[k + 2..]
      ensures Contents() == old(Contents())[..k + 1] + old(Contents())[k + 2..]
    {
      hide Distinct;
      ghost var was, c := list, Contents();
      DistinctRemove(was, k + 1);
      assert Linked(was, k + 1);
      temp.next := del.next;
      del.next := null;
      list := was[..k + 1] + was[k + 2..];
      forall i | 0 <= i < |list|
        ensures Linked(list, i) && Nodes(list)[i] == c[if i < k + 1 then i else i + 1]
      {
        var m := if i < k + 1 then i else i + 1;
        Bypassed(was, k + 1, i);
        assert old(Linked(list, m));
        DistinctAt(was, m, k + 1);
        if m != k {
          DistinctAt(was, m, k);
        }
      }
    }

    /** The unlinking loop of removeJob: drops every cell after the head whose pid matches. */
    method Unlink(pid: int)
      requires Valid() && list != []
      modifies this`list, Cells()
      ensures Valid() && list != [] && list[0] == old(list)[0]
      ensures Contents() == [old(Contents())[0]] + Without(old(Contents())[1..], pid)
      ensures Cells() <= old(Cells())
    {
      hide Without;
      var temp := head;
      ghost var k, c := 0, Contents();
      ghost var goal := [c[0]] + Without(c[1..], pid);
      assert c[..1] == [c[0]];
      while temp.next != null
        invariant Valid() && c == Contents() && 0 <= k < |list| && temp == list[k] && list[0] == old(list)[0]
        invariant Cells() <= old(Cells())
        invariant c[..k + 1] + Without(c[k + 1..], pid) == goal
        decreases |list| - k
      {
        assert Linked(list, k);
        if temp.next.node.pid == pid {
          UnlinkStep(c, k, pid);
          assert list[k] in list && list[k + 1] in list;
          UnlinkNext(temp, temp.next, k);
          c := Contents();
        } else {
          KeepStep(c, k, pid);
          temp := temp.next;
          k := k + 1;
        }
      }
      assert Linked(list, k);
      WithoutAbsent(c[k + 1..], pid);
    }

    /** Takes the head out of the chain and returns the cell behind it. */
    method UnlinkHead() returns (h: Job?)
      requires Valid() && list != []
      modifies this`list, head`next
      ensures Chain(list) && h == CellAt(list, 0) && list == old(list)[1..]
      ensures Contents() == old(Contents())[1..]
    {
      hide Distinct;
      ghost var was := list;
      DistinctRemove(was, 0);
      assert was[..0] + was[1..] == was[1..] && Linked(was, 0);
      h := head.next;
      head.next := null;
      list := was[1..];
      forall i | 0 <= i < |list|
        ensures Linked(list, i)
      {
        DistinctAt(was, i + 1, 0);
        assert list[i] == was[i + 1] && old(Linked(list, i + 1));
      }
    }

    /** removeJob: the new head is returned and not stored. */
    method RemoveJob(pid: int) returns (h: Job?)
      requires Valid() && list != []
      modifies this`isSuspended, this`list, Cells()
      ensures Chain(list) && h == CellAt(list, 0)
      ensures !isSuspended && parentPid == old(parentPid)
      ensures Contents() == if old(isSuspended) then old(Contents()) else Removed(old(Contents()), pid)
      ensures var c := old(Contents());
        !old(isSuspended) ==>
          Contents() == if pid < 0 || c[0].pid == pid then c[1..] else [c[0]] + Without(c[1..], pid)
      ensures Cells() <= old(Cells())
      ensures (list != [] && list[0] == old(list)[0]) || (!old(isSuspended) && (pid < 0 || old(Contents())[0].pid == pid))
    {
      if isSuspended {
        isSuspended := false;
        return head;
      }
      var temp := head;
      if pid < 0 || temp.node.pid == pid {
        h := UnlinkHead();
      } else {
        Unlink(pid);
        h := head;
      }
    }

    /** insert_background_job: the process becomes its own group. */
    method Spawn(pid: int, name: string)
      requires Valid() && list != []
      modifies this`list, Cells()
      ensures Valid() && Contents() == Apply(old(Contents()), Op.Spawn(pid, name, pid), parentPid)
      ensures var c := old(Contents());
        c[|c| - 1].pid != pid ==> Contents() == c + [Record(pid, name, Background, pid)]
      ensures fresh(Cells() - old(Cells()))
    {
      Insert(Record(pid, name, Background, pid));
    }

    /** job_wait, when WSTOPSIG(status) is not 0: the job has stopped, or exited with another code than 0. */
    method Suspend(pid: int, name: string, gid: int)
      requires Valid() && list != []
      modifies this`list, Cells()
      ensures Valid() && Contents() == Apply(old(Contents()), Op.Suspend(pid, name, gid), parentPid)
      ensures var c := old(Contents());
        c[|c| - 1].pid != pid ==> Contents() == c + [Record(pid, name, Suspended, gid)]
      ensures fresh(Cells() - old(Cells()))
    {
      Insert(Record(pid, name, Suspended, gid));
    }

    /** shellfgCommand: the head that removeJob returns is discarded, which is harmless because a
        foreground head is never the one removed. */
    method Fg(pid: int, delivered: bool, ghost shell: Record)
      requires Valid() && TableInv(Contents(), shell) && !isSuspended
      modifies this`isSuspended, this`list, Cells()
      ensures Valid() && !isSuspended
      ensures Contents() == Apply(old(Contents()), Op.Fg(pid, delivered), parentPid)
      ensures var c := old(Contents());
        && (forall k :: 0 < k < |c| && c[k].pid == pid && delivered ==> Contents() == c[..k] + c[k + 1..])
        && (!delivered || (forall k :: 0 < k < |c| ==> c[k].pid != pid) ==> Contents() == c)
      ensures Cells() <= old(Cells())
    {
      hide Chain, DistinctPids, Nodes;
      FgEffect(Contents(), pid, delivered, parentPid, shell);
      HeadNode();
      var temp := FindPid(pid);
      if temp != null {
        NodeAt(IndexOf(Contents(), pid));
      }
      if temp != null && temp.node.status != Foreground {
        if !delivered {
          return;
        }
        var _ := RemoveJob(pid);
      }
    }

    /** shellbgCommand. */
    method Bg(pid: int, delivered: bool)
      requires Valid()
      modifies Cells()
      ensures Valid()
      ensures old(Contents()) != [] ==> Contents() == Apply(old(Contents()), Op.Bg(pid, delivered), parentPid)
      ensures var c := old(Contents());
        && (forall k :: FirstOf(c, k, pid) ==>
              Contents() == if pid != parentPid && c[k].status.Suspended? && delivered
                            then c[k := Record(pid, c[k].name, Background, c[k].gid)] else c)
        && ((forall k :: 0 <= k < |c| ==> c[k].pid != pid) ==> Contents() == c)
    {
      hide Chain, Nodes;
      if Contents() != [] {
        BgEffect(Contents(), pid, delivered, parentPid);
      }
      var temp := FindPid(pid);
      if temp != null {
        NodeAt(IndexOf(Contents(), pid));
      }
      if temp != null && temp.node.pid != parentPid {
        if temp.node.status != Suspended || !delivered {
          return;
        }
        ChangeStatus(pid, Background);
      }
    }

    /** jobSet = removeJob(jobSet, pid) for the background job k. */
    method RemoveAt(pid: int, ghost k: nat, ghost shell: Record)
      requires Valid() && TableInv(Contents(), shell) && !isSuspended
      requires k < |list| && Contents()[k].pid == pid && Contents()[k].status.Background?
      modifies this, Cells()
      ensures Valid() && !isSuspended && parentPid == old(parentPid) && Cells() <= old(Cells())
      ensures TableInv(Contents(), shell) && |list| == |old(list)| - 1
      ensures Contents() == old(Contents())[..k] + old(Contents())[k + 1..]
    {
      hide Chain, Nodes, Removed, Without, DistinctPids;
      ReapStep(Contents(), k, shell);
      head := RemoveJob(pid);
    }

    /** The reaping loop of main: after each removal it starts again behind the head.  `finished(q)`
        is the set of pids for which the q-th call of waitpid(.., WNOHANG) would not be 0; it may
        change from call to call.  The pass ends, `reaped` being the pids it removed: what is left
        are the other jobs, in order; only background jobs that were found finished are gone, and
        every background job left was found running.  If nothing finishes during the pass, exactly
        the finished background jobs are gone. */
    method Reap(finished: nat -> set<int>, ghost shell: Record) returns (queries: nat, ghost reaped: set<int>)
      requires Valid() && TableInv(Contents(), shell) && !isSuspended
      modifies this, Cells()
      ensures Valid() && !isSuspended && parentPid == old(parentPid) && Cells() <= old(Cells())
      ensures Contents() == Alive(old(Contents()), reaped)
      ensures forall p :: p in reaped ==> FoundFinished(finished, queries, p)
      ensures forall r :: r in Contents() && r.status.Background? ==> FoundRunning(finished, queries, r.pid)
      ensures (forall q :: finished(q) == finished(0)) ==> Contents() == Alive(old(Contents()), finished(0))
    {
      hide Chain, Alive, TableInv, DistinctPids, Nodes, Checked, FoundFinished, FoundRunning;
      TableHead(Contents(), shell);
      ghost var was := Contents();
      ghost var c := was;
      queries, reaped := 0, {};
      AliveNone(was);
      CheckedNone(was, finished, 0);
      var curr := head;
      ghost var k := 0;
      while curr != null
        invariant Valid() && !isSuspended && parentPid == old(parentPid) && Cells() <= old(Cells())
        invariant c == Contents() && TableInv(c, shell) && c == Alive(was, reaped)
        invariant forall p :: p in reaped ==> FoundFinished(finished, queries, p)
        invariant 0 <= k <= |list| && curr == CellAt(list, k)
        invariant Checked(c, k, finished, queries)
        decreases |list|, |list| - k
      {
        NodeAt(k);
        if curr.node.status == Background {
          queries := queries + 1;
          CheckedLater(c, k, reaped, finished, queries - 1);
          if curr.node.pid in finished(queries - 1) {
            TableHead(c, shell);
            AliveOneMore(was, reaped, k);
            reaped := reaped + {curr.node.pid};
            RemoveAt(curr.node.pid, k, shell);
            c := Contents();
            curr := head;
            k := 0;
            TableHead(c, shell);
            CheckedHead(c, shell, finished, queries);
          }
        } else {
          CheckedOther(c, k, finished, queries);
        }
        NextIs(k);
        curr := curr.next;
        k := k + 1;
      }
      ReapEnd(was, reaped, finished, queries);
    }

    lemma NodeAt(k: nat)
      requires k < |list|
      ensures list[k].node == Contents()[k] && list[k] in Cells()
    {
    }

    lemma HeadNode()
      requires Valid() && list != []
      ensures head == list[0] && head.node == Contents()[0]
    {
    }

    lemma NextIs(k: nat)
      requires Valid() && k < |list|
      ensures list[k].next == CellAt(list, k + 1)
    {
      assert Linked(list, k);
    }
  }

  /** One of the first n calls of waitpid found the pid finished, or running. */
  ghost predicate FoundFinished(finished: nat -> set<int>, n: nat, pid: int) {
    exists q: nat :: q < n && pid in finished(q)
  }

  ghost predicate FoundRunning(finished: nat -> set<int>, n: nat, pid: int) {
    exists q: nat :: q < n && pid !in finished(q)
  }

  /** The background jobs among the first k records have been found running. */
  ghost predicate Checked(c: seq<Record>, k: nat, finished: nat -> set<int>, n: nat) {
    forall i :: 0 <= i < k <= |c| && c[i].status.Background? ==> FoundRunning(finished, n, c[i].pid)
  }

  /** After one more call, for record k. */
  lemma CheckedLater(c: seq<Record>, k: nat, reaped: set<int>, finished: nat -> set<int>, n: nat)
    requires k < |c| && Checked(c, k, finished, n)
    requires forall p :: p in reaped ==> FoundFinished(finished, n, p)
    ensures forall p :: p in reaped ==> FoundFinished(finished, n + 1, p)
    ensures c[k].pid in finished(n) ==> FoundFinished(finished, n + 1, c[k].pid)
    ensures c[k].pid !in finished(n) ==> Checked(c, k + 1, finished, n + 1)
  {
  }

  lemma CheckedOther(c: seq<Record>, k: nat, finished: nat -> set<int>, n: nat)
    requires k < |c| && Checked(c, k, finished, n) && !c[k].status.Background?
    ensures Checked(c, k + 1, finished, n)
  {
  }

  lemma CheckedNone(c: seq<Record>, finished: nat -> set<int>, n: nat)
    ensures Checked(c, 0, finished, n)
  {
  }

  /** A restart skips the head, which is the shell itself. */
  lemma CheckedHead(c: seq<Record>, shell: Record, finished: nat -> set<int>, n: nat)
    requires TableInv(c, shell)
    ensures Checked(c, 1, finished, n)
  {
  }

  lemma TableHead(c: seq<Record>, shell: Record)
    requires TableInv(c, shell)
    ensures c != [] && c[0] == shell && DistinctPids(c)
  {
  }

  lemma AliveNone(c: seq<Record>)
    ensures Alive(c, {}) == c
  {
    AliveIsAll(c, {});
  }

  lemma ReapStep(c: seq<Record>, k: nat, shell: Record)
    requires TableInv(c, shell) && k < |c| && c[k].status.Background?
    ensures k > 0 && c[k].pid > 0 && c[k].pid != c[0].pid && Removed(c, c[k].pid) == c[..k] + c[k + 1..]
    ensures DistinctPids(c) && TableInv(Removed(c, c[k].pid), shell)
  {
    RemovedAt(c, k);
    RemoveKeeps(c, k, shell);
  }

  lemma ReapEnd(was: seq<Record>, reaped: set<int>, finished: nat -> set<int>, n: nat)
    requires Checked(Alive(was, reaped), |Alive(was, reaped)|, finished, n)
    requires forall p :: p in reaped ==> FoundFinished(finished, n, p)
    ensures forall r :: r in Alive(was, reaped) && r.status.Background? ==> FoundRunning(finished, n, r.pid)
    ensures (forall q :: finished(q) == finished(0)) ==> Alive(was, reaped) == Alive(was, finished(0))
  {
    if forall q :: finished(q) == finished(0) {
      forall p | p in reaped
        ensures p in finished(0)
      {
        var q: nat :| q < n && p in finished(q);
        assert finished(q) == finished(0);
      }
      var c := Alive(was, reaped);
      forall r | r in c
        ensures !Finished(r, finished(0))
      {
        var i :| 0 <= i < |c| && c[i] == r;
        if r.status.Background? {
          var q: nat :| q < n && c[i].pid !in finished(q);
          assert finished(q) == finished(0);
        }
      }
      AllReaped(was, reaped, finished(0));
    }
  }

  /** Record k is the first foreground record behind the head. */
  ghost predicate IsFirstForeground(c: seq<Record>, k: int) {
    1 <= k < |c| && c[k].status == Foreground && forall i :: 1 <= i < k ==> c[i].status != Foreground
  }

  lemma {:induction false} ForegroundIs(c: seq<Record>)
    requires c != []
    ensures forall k :: IsFirstForeground(c, k) ==> ForegroundPid(c) == c[k].pid
    ensures (forall k :: 1 <= k < |c| ==> c[k].status != Foreground) ==> ForegroundPid(c) == -1
  {
    if |c| > 1 && c[1].status != Foreground {
      ForegroundIs(c[1..]);
      forall k | IsFirstForeground(c, k)
        ensures ForegroundPid(c) == c[k].pid
      {
        assert IsFirstForeground(c[1..], k - 1);
      }
    }
  }

  lemma IndexUnique(c: seq<Record>, pid: int, k: nat)
    requires k < |c| && c[k].pid == pid && forall i :: 0 <= i < k ==> c[i].pid != pid
    ensures IndexOf(c, pid) == k
  {
    var m := IndexOf(c, pid);
  }

  lemma UnlinkStep(c: seq<Record>, k: nat, pid: int)
    requires k + 1 < |c| && c[k + 1].pid == pid
    ensures Without(c[k + 1..], pid) == Without(c[k + 2..], pid)
    ensures (c[..k + 1] + c[k + 2..])[..k + 1] == c[..k + 1]
    ensures (c[..k + 1] + c[k + 2..])[k + 1..] == c[k + 2..]
  {
    assert c[k + 1..][1..] == c[k + 2..];
  }

  lemma KeepStep(c: seq<Record>, k: nat, pid: int)
    requires k + 1 < |c| && c[k + 1].pid != pid
    ensures c[..k + 1] + Without(c[k + 1..], pid) == c[..k + 2] + Without(c[k + 2..], pid)
  {
    assert c[k + 1..][1..] == c[k + 2..];
    assert c[..k + 2] == c[..k + 1] + [c[k + 1]];
  }
}
