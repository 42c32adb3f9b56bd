/**
 Whole runs of job control: forks, wait reports, resumptions, flushes, reapings
 and directory changes in any order, and what holds at every point of any run.
 */
module Shell {
  import opened Dirs
  import opened Procs
  import J = Jobs
  import DirStack

  datatype Event =
    | Fork(pid: nat, amp: bool, timed: bool, pipe: bool, err: bool)
    | Endjob
    | Wait(pid: nat, st: J.Status, cpu: nat, limit: int, notify: bool)
    | Start(leader: Ptr, foregnd: bool)
    | Flush(proc: Ptr)
    | Reap
    | Chdir(cmd: J.Command)

  /**
   What the kernel and the callers see to: a child's id is not in use, only a
   child that has not ended is reported on, and pointers are to processes.
   */
  predicate Possible(t: Table, e: Event)
  {
    match e
    case Fork(pid, _, _, _, _) => pid > 0 && forall p <- t :: t[p].pid != pid
    case Wait(pid, _, _, _, _) =>
      pid > 0 && forall p <- t :: t[p].pid == pid ==> Running in t[p].flags || Stopped in t[p].flags
    case Start(l, _) => l in t && t[l].pid != 0 && t[l].pid == t[l].jobid
    case Flush(p) => p in t
    case _ => true
  }

  method Step(j: J.Jobs, e: Event)
    requires j.Valid() && Possible(j.procs, e)
    modifies j, j.ds
    ensures j.Valid()
  {
    hide J.Jobs.Valid;
    match e {
      case Fork(pid, amp, timed, pipe, err) =>
        var _ := j.Palloc(pid, amp, timed, pipe, err);
      case Endjob =>
        j.Pendjob();
      case Wait(pid, st, cpu, limit, notify) =>
        j.Pchild(pid, st, cpu, limit, notify);
      case Start(l, foregnd) =>
        LeaderOfJob(j, l);
        j.Pstart(l, foregnd);
      case Flush(p) =>
        j.Pflush(p);
      case Reap =>
        j.Reap();
      case Chdir(cmd) =>
        var _ := j.Chdir(cmd);
    }
  }

  /** A run from the start of the shell; events that cannot happen when their turn comes are passed over. */
  method Run(home: string, events: seq<Event>) returns (j: J.Jobs)
    ensures j.Valid()
  {
    hide J.Jobs.Valid;
    j := new J.Jobs(home);
    for i := 0 to |events|
      invariant fresh(j) && fresh(j.ds) && j.Valid()
    {
      if Possible(j.procs, events[i]) {
        Step(j, events[i]);
      }
    }
  }

  lemma {:induction false} LeaderOfJob(j: J.Jobs, l: Ptr)
    requires j.Valid() && l in j.procs && j.procs[l].pid != 0 && j.procs[l].pid == j.procs[l].jobid
    ensures l in j.jobs
  {
    hide Listed, OnList, Indexed, States, Holding, Picked, DirStack.Stack.Valid;
    assert l in j.lead;
    LeaderById(j.procs, j.jobs, j.lead, l);
  }

  // -------- what holds at every point --------

  /**
   From any process not flushed, `friends` leads once round all the processes of
   its job and no others; just one of them leads, and all have one index.
   */
  lemma {:induction false} OneCycle(j: J.Jobs, p: Ptr) returns (r: seq<Ptr>, l: Ptr)
    requires j.Valid() && p in j.procs && j.procs[p].pid != 0
    ensures FriendRing(j.procs, r) && r[0] == p && l in r
    ensures forall q :: q in r <==> q in j.procs && j.procs[q].pid != 0 && j.procs[q].jobid == j.procs[p].jobid
    ensures forall q :: q in r && q in j.procs ==> (j.procs[q].pid == j.procs[q].jobid <==> q == l)
    ensures forall q :: q in r && q in j.procs ==> j.procs[q].index == j.procs[p].index
  {
    hide Listed, OnList, Indexed, States, Holding, Picked, DirStack.Stack.Valid, FriendRing;
    var t, jobs, lead := j.procs, j.jobs, j.lead;
    assert p in lead;
    l := lead[p];
    r := RingFrom(t, jobs[l], p);
    assert l in lead && lead[l] == l;
    forall q | q in t && t[q].pid != 0 && t[q].jobid == t[p].jobid ensures q in r {
      assert q in lead && lead[q] in lead && lead[lead[q]] == lead[q];
      assert t[lead[q]].pid == t[l].pid;
    }
    forall q | q in r && q in t ensures t[q].pid == t[q].jobid <==> q == l {
      LeaderById(t, jobs, lead, q);
    }
  }

  /** Job indices tell jobs apart, start at 1, and the largest in use is kept. */
  lemma {:induction false} IndexTellsJobs(j: J.Jobs, p: Ptr, q: Ptr)
    requires j.Valid() && p in j.procs && q in j.procs && j.procs[p].pid != 0 && j.procs[q].pid != 0
    ensures j.procs[p].index == j.procs[q].index <==> j.procs[p].jobid == j.procs[q].jobid
    ensures 1 <= j.procs[p].index <= j.pmaxindex
    ensures exists m :: m in j.procs && j.procs[m].pid != 0 && j.procs[m].index == j.pmaxindex
  {
    hide Listed, OnList, States, Holding, Picked, Rings, DirStack.Stack.Valid;
    var t, jobs, lead := j.procs, j.jobs, j.lead;
    assert p in lead && q in lead && lead[p] in jobs && lead[q] in jobs;
    assert lead[p] in lead && lead[q] in lead;
    assert t[lead[p]].pid == t[lead[q]].pid ==> lead[p] == lead[q];
  }

  /** The process leads a job that is not flushed. */
  ghost predicate Leads(j: J.Jobs, p: Ptr)
    reads j
  {
    p in j.procs && j.procs[p].pid != 0 && j.procs[p].pid == j.procs[p].jobid
  }

  /** The current and the previous job are leaders of two jobs; no previous one without a current one. */
  lemma {:induction false} CurrentAndPrevious(j: J.Jobs)
    requires j.Valid()
    ensures forall l :: l in {j.pcurrent, j.pprevious, j.pcurrjob} && l != NULL ==> Leads(j, l)
    ensures j.pprevious != NULL ==> j.pcurrent != NULL && j.pcurrent != j.pprevious
    ensures j.pcurrent == NULL ==> j.pprevious == NULL
  {
    hide Listed, OnList, Indexed, States, Holding, DirStack.Stack.Valid, Rings;
    forall l | l in {j.pcurrent, j.pprevious, j.pcurrjob} && l != NULL ensures Leads(j, l) {
      assert l in j.jobs && l in j.lead;
    }
  }

  /**
   No job is current only with at most one job in the table, and none is previous only with at most one job
   besides the current one.
   */
  lemma {:induction false} MarksInUse(j: J.Jobs, p: Ptr, q: Ptr)
    requires j.Valid() && Leads(j, p) && Leads(j, q) && p != q
    ensures j.pcurrent != NULL
    ensures p != j.pcurrent && q != j.pcurrent ==> j.pprevious != NULL
  {
    hide Listed, OnList, Indexed, States, Holding, DirStack.Stack.Valid;
    assert p in j.lead && q in j.lead;
    LeaderById(j.procs, j.jobs, j.lead, p);
    LeaderById(j.procs, j.jobs, j.lead, q);
    assert p in j.jobs && q in j.jobs;
  }

  /** A process not flushed is in exactly one of the six states. */
  lemma {:induction false} JustOneState(j: J.Jobs, p: Ptr)
    requires j.Valid() && p in j.procs && j.procs[p].pid != 0
    ensures |j.procs[p].flags * ALLSTATES| == 1
  {
    hide Listed, OnList, Indexed, Rings, Led, Holding, Picked, DirStack.Stack.Valid;
    var s := j.procs[p].flags * ALLSTATES;
    assert OneState(j.procs[p].flags);
    assert forall f: Flag :: |{f}| == 1;
  }

  /**
   A directory entry exists exactly as long as it is in the stack or held by a process
   not yet reaped; its count is the number of such processes; it is marked by a null link
   exactly when it has left the stack.
   */
  lemma {:induction false} EntryLifetime(j: J.Jobs, d: Ptr)
    requires j.Valid() && d != j.ds.head
    ensures d in j.ds.dirs <==> d in j.ds.stack || (d != NULL && exists p :: p in j.procs && j.procs[p].cwd == d)
    ensures d in j.ds.dirs ==> j.ds.dirs[d].count == Holders(j.procs, d)
    ensures d in j.ds.dirs ==> (d !in j.ds.stack <==> j.ds.dirs[d].next == NULL)
  {
    hide Listed, Indexed, Rings, Led, Named, States, Picked, DirStack.Stacked;
    var ds := j.ds;
    DirStack.StackedFacts(ds.dirs, ds.head, ds.stack, ds.at);
    if d in ds.dirs {
      assert ds.dirs[d].count == Refs(j.procs, j.list, d);
      DirStack.CountOk(ds.dirs, ds.head, ds.stack, ds.at, d, 0);
      ListDistinct(j);
      RefsHolders(j.procs, j.list, d);
      assert HoldersIn(j.procs, j.list, d) == (set p | p in j.procs && j.procs[p].cwd == d);
      if d !in ds.stack {
        var p := J.RefsHolder(j.procs, j.list, d);
      }
    }
  }

  ghost function Holders(t: Table, d: Ptr): nat
  {
    |set p | p in t && t[p].cwd == d|
  }

  lemma {:induction false} ListDistinct(j: J.Jobs)
    requires j.Valid()
    ensures Distinct(j.list)
  {
    hide OnList, Indexed, Rings, Led, Named, States, Picked, Holding, DirStack.Stack.Valid;
    ListedFacts(j.procs, j.first, j.list);
  }

  ghost function HoldersIn(t: Table, list: seq<Ptr>, d: Ptr): set<Ptr>
    requires forall p :: p in list ==> p in t
  {
    set p | p in list && t[p].cwd == d
  }

  lemma {:induction false} HoldersStep(t: Table, p: Ptr, rest: seq<Ptr>, d: Ptr)
    requires p !in rest && p in t && forall q :: q in rest ==> q in t
    ensures HoldersIn(t, [p] + rest, d) == HoldersIn(t, rest, d) + (if t[p].cwd == d then {p} else {})
    ensures p !in HoldersIn(t, rest, d)
  {
  }

  lemma {:induction false} RefsHolders(t: Table, list: seq<Ptr>, d: Ptr)
    requires Distinct(list) && forall p :: p in list ==> p in t
    ensures Refs(t, list, d) == |HoldersIn(t, list, d)|
  {
    hide HoldersIn;
    if list != [] {
      RefsHolders(t, list[1..], d);
      assert list == [list[0]] + list[1..];
      HoldersStep(t, list[0], list[1..], d);
    } else {
      assert HoldersIn(t, [], d) == {} by { NoHolders(t, d); }
    }
  }

  lemma {:induction false} NoHolders(t: Table, d: Ptr)
    ensures HoldersIn(t, [], d) == {}
  {
  }
}
