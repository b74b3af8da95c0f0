/** The shell's job table as a value: what each operation does to it, and what every run of
    operations keeps (MyShell/shell.c). */
module JobSpec {

  datatype Status = Suspended | Background | Foreground

  datatype Record = Record(pid: int, name: string, status: Status, gid: int)

  /** insert: appends, unless the last record has the same pid. */
  function Inserted(c: seq<Record>, r: Record): seq<Record>
    requires c != []
  {
    if c[|c| - 1].pid != r.pid then c + [r] else c
  }

  function Without(c: seq<Record>, pid: int): (r: seq<Record>)
    ensures |r| <= |c|
  {
    if c == [] then []
    else (if c[0].pid == pid then [] else [c[0]]) + Without(c[1..], pid)
  }

  /** removeJob: the head for its own or a negative pid, otherwise every other record of that pid. */
  function Removed(c: seq<Record>, pid: int): seq<Record>
    requires c != []
  {
    if pid < 0 || c[0].pid == pid then c[1..] else [c[0]] + Without(c[1..], pid)
  }

  /** findPID as an index: the first record of that pid, or the length of the table. */
  function IndexOf(c: seq<Record>, pid: int): (k: nat)
    ensures k <= |c|
    ensures k < |c| ==> c[k].pid == pid
    ensures forall i :: 0 <= i < k ==> c[i].pid != pid
  {
    if c == [] || c[0].pid == pid then 0 else 1 + IndexOf(c[1..], pid)
  }

  /** findFG_STATUS: the pid of the first foreground record after the head, or -1. */
  function ForegroundPid(c: seq<Record>): int
    requires c != []
  {
    if |c| == 1 then -1
    else if c[1].status.Foreground? then c[1].pid
    else ForegroundPid(c[1..])
  }

  /** changeStatus: the first record of that pid. */
  function Changed(c: seq<Record>, pid: int, status: Status): seq<Record> {
    var k := IndexOf(c, pid);
    if k < |c| then c[k := c[k].(status := status)] else c
  }

  predicate Finished(r: Record, finished: set<int>) {
    r.status.Background? && r.pid in finished
  }

  /** The records that are not finished background jobs, in order. */
  function Alive(c: seq<Record>, finished: set<int>): (r: seq<Record>)
    ensures |r| <= |c|
  {
    if c == [] then []
    else (if Finished(c[0], finished) then [] else [c[0]]) + Alive(c[1..], finished)
  }

  lemma {:induction false} WithoutConcat(a: seq<Record>, b: seq<Record>, pid: int)
    ensures Without(a + b, pid) == Without(a, pid) + Without(b, pid)
  {
    if a == [] {
      assert a + b == b;
    } else {
      assert (a + b)[1..] == a[1..] + b;
      WithoutConcat(a[1..], b, pid);
    }
  }

  /** Without, like Alive, is a filter: it is determined by what it does to single records. */
  lemma FilterOne(r: Record, pid: int, finished: set<int>)
    ensures Without([r], pid) == if r.pid == pid then [] else [r]
    ensures Alive([r], finished) == if r.status.Background? && r.pid in finished then [] else [r]
  {
  }

  lemma {:induction false} WithoutAbsent(c: seq<Record>, pid: int)
    requires forall i :: 0 <= i < |c| ==> c[i].pid != pid
    ensures Without(c, pid) == c
  {
    if c != [] {
      WithoutAbsent(c[1..], pid);
    }
  }

  lemma WithoutHead(r: Record, b: seq<Record>)
    ensures Without([r] + b, r.pid) == Without(b, r.pid)
  {
    assert ([r] + b)[1..] == b;
  }

  lemma {:induction false} AliveConcat(a: seq<Record>, b: seq<Record>, finished: set<int>)
    ensures Alive(a + b, finished) == Alive(a, finished) + Alive(b, finished)
  {
    if a == [] {
      assert a + b == b;
    } else {
      assert (a + b)[1..] == a[1..] + b;
      AliveConcat(a[1..], b, finished);
    }
  }

  lemma {:induction false} AliveIsAll(c: seq<Record>, finished: set<int>)
    requires forall i :: 0 <= i < |c| ==> !Finished(c[i], finished)
    ensures Alive(c, finished) == c
  {
    if c != [] {
      AliveIsAll(c[1..], finished);
    }
  }

  ghost predicate DistinctPids(c: seq<Record>) {
    forall i, j :: 0 <= i < j < |c| ==> c[i].pid != c[j].pid
  }

  lemma WithoutOne(a: seq<Record>, r: Record, b: seq<Record>)
    requires forall i :: 0 <= i < |a| ==> a[i].pid != r.pid
    requires forall i :: 0 <= i < |b| ==> b[i].pid != r.pid
    ensures Without(a + ([r] + b), r.pid) == a + b
  {
    hide Without;
    WithoutConcat(a, [r] + b, r.pid);
    WithoutAbsent(a, r.pid);
    WithoutHead(r, b);
    WithoutAbsent(b, r.pid);
  }

  /** With distinct pids, removing the pid of record k removes that record only. */
  lemma RemovedAt(c: seq<Record>, k: nat)
    requires DistinctPids(c) && 0 < k < |c| && c[k].pid >= 0
    ensures Removed(c, c[k].pid) == c[..k] + c[k + 1..]
  {
    hide Without;
    var a, b := c[1..k], c[k + 1..];
    WithoutOne(a, c[k], b);
    assert c[1..] == a + ([c[k]] + b);
    assert c[..k] == [c[0]] + a;
    assert [c[0]] + (a + b) == [c[0]] + a + b;
  }

  /** Removing a finished background job does not change who is alive. */
  lemma AliveAfterRemoval(c: seq<Record>, k: nat, finished: set<int>)
    requires k < |c| && Finished(c[k], finished)
    ensures Alive(c[..k] + c[k + 1..], finished) == Alive(c, finished)
  {
    var b := [c[k]] + c[k + 1..];
    assert c == c[..k] + b && b[1..] == c[k + 1..];
    AliveConcat(c[..k], b, finished);
    AliveConcat(c[..k], c[k + 1..], finished);
  }

  lemma {:induction false} AliveAlive(c: seq<Record>, a: set<int>, b: set<int>)
    ensures Alive(Alive(c, a), b) == Alive(c, a + b)
  {
    if c != [] {
      AliveAlive(c[1..], a, b);
      var head: seq<Record> := if Finished(c[0], a) then [] else [c[0]];
      AliveConcat(head, Alive(c[1..], a), b);
    }
  }

  /** Removing the finished background job k from the jobs left by earlier removals. */
  lemma AliveOneMore(was: seq<Record>, reaped: set<int>, k: nat)
    requires var c := Alive(was, reaped); DistinctPids(c) && k < |c| && c[k].status.Background?
    ensures var c := Alive(was, reaped); Alive(was, reaped + {c[k].pid}) == c[..k] + c[k + 1..]
  {
    hide Alive;
    var c := Alive(was, reaped);
    var pid := c[k].pid;
    AliveAlive(was, reaped, {pid});
    AliveAfterRemoval(c, k, {pid});
    AliveIsAll(c[..k] + c[k + 1..], {pid});
  }

  /** If only finished jobs were reaped and none is left, the jobs left are those not finished. */
  lemma {:induction false} AllReaped(c: seq<Record>, reaped: set<int>, finished: set<int>)
    requires reaped <= finished
    requires forall r :: r in Alive(c, reaped) ==> !Finished(r, finished)
    ensures Alive(c, reaped) == Alive(c, finished)
  {
    if c != [] {
      AliveSub(c, reaped);
      AliveSub(c[1..], reaped);
      assert c == [c[0]] + c[1..];
      AllReaped(c[1..], reaped, finished);
    }
  }

  // ---------------------------------------------------------------------
  // Runs
  // ---------------------------------------------------------------------

  /** Spawning a background job, suspending a foreground one, the fg and bg commands (with
      whether SIGCONT could be delivered), and the reaping pass. */
  datatype Op = Spawn(pid: int, name: string, gid: int) | Suspend(pid: int, name: string, gid: int)
              | Fg(pid: int, delivered: bool) | Bg(pid: int, delivered: bool) | Reap(finished: set<int>)

  /** `parent` is the global parentPID, which is 0 before the first fork. */
  function Apply(c: seq<Record>, op: Op, parent: int): seq<Record>
    requires c != []
  {
    match op
    case Spawn(pid, name, gid) => Inserted(c, Record(pid, name, Background, gid))
    case Suspend(pid, name, gid) => Inserted(c, Record(pid, name, Suspended, gid))
    case Fg(pid, delivered) =>
      var k := IndexOf(c, pid);
      if k < |c| && !c[k].status.Foreground? && delivered then Removed(c, pid) else c
    case Bg(pid, delivered) =>
      var k := IndexOf(c, pid);
      if k < |c| && c[k].pid != parent && c[k].status.Suspended? && delivered then Changed(c, pid, Background) else c
    case Reap(finished) => Alive(c, finished)
  }

  /** fork returns a process id that is not in the table. */
  ghost predicate FreshPid(c: seq<Record>, op: Op) {
    op.Spawn? || op.Suspend? ==> op.pid > 0 && forall i :: 0 <= i < |c| ==> c[i].pid != op.pid
  }

  /** The head is the shell's own foreground record, nothing else is foreground, and the pids are
      positive and distinct. */
  ghost predicate TableInv(c: seq<Record>, shell: Record) {
    && c != [] && c[0] == shell && shell.status.Foreground?
    && (forall i :: 1 <= i < |c| ==> !c[i].status.Foreground?)
    && (forall i :: 0 <= i < |c| ==> c[i].pid > 0)
    && DistinctPids(c)
  }

  /** A record after an operation is new or was there before, with its status unchanged or moved
      from suspended to background; and a record disappears only by fg or when reaped. */
  ghost predicate Evolves(c: seq<Record>, d: seq<Record>, op: Op) {
    && (forall r :: r in d ==>
          || r in c
          || (exists q :: q in c && q.status.Suspended? && r == q.(status := Background))
          || ((op.Spawn? || op.Suspend?) && r.pid == op.pid))
    && (forall q :: q in c ==>
          || q in d
          || (q.status.Suspended? && q.(status := Background) in d)
          || (op.Fg? && q.pid == op.pid && !q.status.Foreground?)
          || (op.Reap? && Finished(q, op.finished)))
  }

  lemma {:induction false} AliveSub(c: seq<Record>, finished: set<int>)
    ensures forall r :: r in Alive(c, finished) <==> r in c && !Finished(r, finished)
  {
    if c != [] {
      AliveSub(c[1..], finished);
      assert c == [c[0]] + c[1..];
    }
  }

  lemma {:induction false} AliveKeepsPids(c: seq<Record>, finished: set<int>)
    requires DistinctPids(c)
    ensures DistinctPids(Alive(c, finished))
  {
    if c != [] {
      AliveKeepsPids(c[1..], finished);
      AliveSub(c[1..], finished);
      var d := Alive(c[1..], finished);
      forall i | 0 <= i < |d|
        ensures d[i].pid != c[0].pid
      {
        assert d[i] in d && d[i] in c[1..];
      }
    }
  }

  lemma ReapKeeps(c: seq<Record>, finished: set<int>, shell: Record)
    requires TableInv(c, shell)
    ensures TableInv(Alive(c, finished), shell)
  {
    var d := Alive(c, finished);
    assert d[0] == c[0];
    AliveKeepsPids(c, finished);
    AliveSub(c, finished);
    forall i | 0 <= i < |d|
      ensures d[i].pid > 0 && (i > 0 ==> !d[i].status.Foreground?)
    {
      assert d[i] in d && d[i] in c;
      var k :| 0 <= k < |c| && c[k] == d[i];
      assert i > 0 ==> d[0].pid != d[i].pid;
    }
  }

  lemma InsertKeeps(c: seq<Record>, r: Record, shell: Record)
    requires TableInv(c, shell) && !r.status.Foreground? && r.pid > 0
    requires forall i :: 0 <= i < |c| ==> c[i].pid != r.pid
    ensures TableInv(Inserted(c, r), shell)
  {
  }

  lemma RemoveKeeps(c: seq<Record>, k: nat, shell: Record)
    requires TableInv(c, shell) && 0 < k < |c|
    ensures TableInv(c[..k] + c[k + 1..], shell)
  {
  }

  lemma ChangeKeeps(c: seq<Record>, k: nat, status: Status, shell: Record)
    requires TableInv(c, shell) && 0 < k < |c| && !status.Foreground?
    ensures TableInv(c[k := c[k].(status := status)], shell)
  {
  }

  /** Every operation keeps the table's invariant. */
  lemma OpKeeps(c: seq<Record>, op: Op, parent: int, shell: Record)
    requires TableInv(c, shell) && FreshPid(c, op)
    ensures TableInv(Apply(c, op, parent), shell)
  {
    hide Removed, Inserted, Alive, DistinctPids;
    match op
    case Spawn(pid, name, gid) => InsertKeeps(c, Record(pid, name, Background, gid), shell);
    case Suspend(pid, name, gid) => InsertKeeps(c, Record(pid, name, Suspended, gid), shell);
    case Fg(pid, delivered) =>
      var k := IndexOf(c, pid);
      if k < |c| && !c[k].status.Foreground? && delivered {
        RemovedAt(c, k);
        RemoveKeeps(c, k, shell);
      }
    case Bg(pid, delivered) =>
      var k := IndexOf(c, pid);
      if 0 < k < |c| {
        ChangeKeeps(c, k, Background, shell);
      }
    case Reap(finished) => ReapKeeps(c, finished, shell);
  }

  /** What the operations do, said without Apply: fg takes exactly the job out. */
  lemma FgEffect(c: seq<Record>, pid: int, delivered: bool, parent: int, shell: Record)
    requires TableInv(c, shell)
    ensures var d := Apply(c, Fg(pid, delivered), parent);
      && (forall k :: 0 < k < |c| && c[k].pid == pid && delivered ==> d == c[..k] + c[k + 1..])
      && (!delivered || (forall k :: 0 < k < |c| ==> c[k].pid != pid) ==> d == c)
  {
    hide Removed;
    var k := IndexOf(c, pid);
    if 0 < k < |c| {
      RemovedAt(c, k);
    }
  }

  /** bg resumes exactly the suspended job, and leaves everything else alone. */
  lemma BgEffect(c: seq<Record>, pid: int, delivered: bool, parent: int)
    requires c != []
    ensures var d := Apply(c, Bg(pid, delivered), parent);
      && (forall k :: FirstOf(c, k, pid) ==>
            d == if pid != parent && c[k].status.Suspended? && delivered
                 then c[k := Record(pid, c[k].name, Background, c[k].gid)] else c)
      && ((forall k :: 0 <= k < |c| ==> c[k].pid != pid) ==> d == c)
  {
    forall k | FirstOf(c, k, pid)
      ensures IndexOf(c, pid) == k
    {
    }
  }

  /** Record k is the first one of the pid. */
  ghost predicate FirstOf(c: seq<Record>, k: int, pid: int) {
    0 <= k < |c| && c[k].pid == pid && forall i :: 0 <= i < k ==> c[i].pid != pid
  }

  /** Spawn and suspend append a record with their own status. */
  lemma InsertEffect(c: seq<Record>, pid: int, name: string, gid: int, parent: int)
    requires c != [] && c[|c| - 1].pid != pid
    ensures Apply(c, Spawn(pid, name, gid), parent) == c + [Record(pid, name, Background, gid)]
    ensures Apply(c, Suspend(pid, name, gid), parent) == c + [Record(pid, name, Suspended, gid)]
  {
  }

  lemma RemoveEvolves(c: seq<Record>, k: nat, q: Record)
    requires k < |c| && q in c && q != c[k]
    ensures q in c[..k] + c[k + 1..]
  {
    var i :| 0 <= i < |c| && c[i] == q;
    assert i < k ==> c[..k][i] == q;
    assert i > k ==> c[k + 1..][i - k - 1] == q;
  }

  lemma ChangeEvolves(c: seq<Record>, k: nat, r: Record, q: Record)
    requires k < |c| && q in c && q != c[k]
    ensures q in c[k := r] && r in c[k := r]
  {
    var i :| 0 <= i < |c| && c[i] == q;
    assert c[k := r][i] == q && c[k := r][k] == r;
  }

  lemma FgEvolves(c: seq<Record>, k: nat, op: Op)
    requires op.Fg? && k < |c| && c[k].pid == op.pid && !c[k].status.Foreground?
    ensures Evolves(c, c[..k] + c[k + 1..], op)
  {
    forall q | q in c && q != c[k]
      ensures q in c[..k] + c[k + 1..]
    {
      RemoveEvolves(c, k, q);
    }
  }

  lemma BgEvolves(c: seq<Record>, k: nat, op: Op)
    requires k < |c| && c[k].status.Suspended?
    ensures Evolves(c, c[k := c[k].(status := Background)], op)
  {
    var r := c[k].(status := Background);
    assert c[k] in c && c[k := r][k] == r;
    forall q | q in c && q != c[k]
      ensures q in c[k := r]
    {
      ChangeEvolves(c, k, r, q);
    }
  }

  lemma InsertEvolves(c: seq<Record>, r: Record, op: Op)
    requires c != [] && (op.Spawn? || op.Suspend?) && r.pid == op.pid
    ensures Evolves(c, Inserted(c, r), op)
  {
  }

  lemma OpEvolves(c: seq<Record>, op: Op, parent: int, shell: Record)
    requires TableInv(c, shell) && FreshPid(c, op)
    ensures Evolves(c, Apply(c, op, parent), op)
  {
    hide Removed, Alive, Inserted;
    match op
    case Spawn(pid, name, gid) => InsertEvolves(c, Record(pid, name, Background, gid), op);
    case Suspend(pid, name, gid) => InsertEvolves(c, Record(pid, name, Suspended, gid), op);
    case Reap(finished) => AliveSub(c, finished);
    case Fg(pid, delivered) =>
      var k := IndexOf(c, pid);
      if k < |c| && !c[k].status.Foreground? && delivered {
        RemovedAt(c, k);
        FgEvolves(c, k, op);
      }
    case Bg(pid, delivered) =>
      var k := IndexOf(c, pid);
      if k < |c| && c[k].status.Suspended? {
        BgEvolves(c, k, op);
      }
  }

  lemma {:induction false} NoForeground(c: seq<Record>)
    requires c != [] && forall i :: 1 <= i < |c| ==> !c[i].status.Foreground?
    ensures ForegroundPid(c) == -1
  {
    if |c| > 1 {
      NoForeground(c[1..]);
    }
  }

  /** The tables of a run, starting with the shell alone. */
  ghost predicate TableRun(tables: seq<seq<Record>>, ops: seq<Op>, parents: seq<int>, shell: Record) {
    && |tables| == |ops| + 1 && |parents| == |ops| && tables[0] == [shell]
    && forall i :: 0 <= i < |ops| ==>
         tables[i] != [] && FreshPid(tables[i], ops[i]) && tables[i + 1] == Apply(tables[i], ops[i], parents[i])
  }

  /** In every run of operations the head stays the shell's own record, findFG_STATUS stays -1,
      and jobs only ever move from suspended to background. */
  lemma {:induction false} EveryRun(tables: seq<seq<Record>>, ops: seq<Op>, parents: seq<int>, shell: Record, n: nat)
    requires TableRun(tables, ops, parents, shell) && n <= |ops|
    requires shell.status.Foreground? && shell.pid > 0
    ensures TableInv(tables[n], shell) && ForegroundPid(tables[n]) == -1
    ensures n < |ops| ==> Evolves(tables[n], tables[n + 1], ops[n])
  {
    hide Apply, Evolves;
    if n > 0 {
      EveryRun(tables, ops, parents, shell, n - 1);
      OpKeeps(tables[n - 1], ops[n - 1], parents[n - 1], shell);
    }
    NoForeground(tables[n]);
    if n < |ops| {
      OpEvolves(tables[n], ops[n], parents[n], shell);
    }
  }
}
