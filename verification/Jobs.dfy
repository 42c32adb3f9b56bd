/**
 Job control: the steps that start, report, resume, flush and reap processes,
 and the invariant that every one of them keeps.
 */
module Jobs {
  import opened Dirs
  import opened Procs
  import DirStack

  const BIGINDEX: nat := 9

  class Jobs {
    const ds: DirStack.Stack
    var procs: Table
    var first: Ptr
    var pcurrjob: Ptr
    var pcurrent: Ptr
    var pprevious: Ptr
    var pmaxindex: nat

    ghost var list: seq<Ptr>
    ghost var jobs: map<Ptr, seq<Ptr>>
    ghost var lead: map<Ptr, Ptr>

    ghost predicate Valid()
      reads this, ds
    {
      && Listed(procs, first, list) && OnList(procs, list)
      && Rings(procs, jobs) && Led(procs, jobs, lead)
      && Named(procs) && Indexed(procs, jobs, pmaxindex) && States(procs)
      && Picked(jobs, pcurrent, pprevious) && (pcurrjob != NULL ==> pcurrjob in jobs)
      && ds.Valid() && Holding(procs, list, lead, ds.dirs, ds.head)
    }

    constructor (name: string)
      ensures Valid() && procs == map[] && pcurrent == pprevious == pcurrjob == NULL && pmaxindex == 0
      ensures fresh(ds)
    {
      ds := new DirStack.Stack(name);
      procs, first, pcurrjob, pcurrent, pprevious, pmaxindex := map[], NULL, NULL, NULL, NULL, 0;
      list, jobs, lead := [], map[], map[];
    }

    /**
     `palloc`: a new running process, in the ring of the job being built if there
     is one, otherwise the leader of a new job in the current directory.
     */
    method Palloc(pid: nat, amp: bool, timed: bool, pipe: bool, err: bool) returns (pp: Ptr)
      requires Valid() && pid > 0 && forall p :: p in procs ==> procs[p].pid != pid
      modifies this, ds
      ensures Valid() && list == [pp] + old(list) && procs.Keys == old(procs).Keys + {pp} && pp !in old(procs)
      ensures procs[pp].pid == pid && procs[pp].flags == StartFlags(amp, timed, pipe, err)
      ensures forall fl :: fl in procs[pp].flags <==>
                fl == Running || (fl == Foregnd && !amp) || (fl == PTime && timed) || (fl == Pou && pipe) || (fl == Err && pipe && err)
      ensures ds.stack == old(ds.stack)
      ensures old(pcurrjob) != NULL ==> var l := old(pcurrjob);
                && l in old(jobs) && jobs == old(jobs)[l := old(jobs)[l] + [pp]] && ds.dirs == old(ds.dirs)
                && pcurrjob == l && pcurrent == old(pcurrent) && pprevious == old(pprevious) && pmaxindex == old(pmaxindex)
      ensures old(pcurrjob) == NULL ==>
                && jobs == old(jobs)[pp := [pp]] && pcurrjob == pp && procs[pp].cwd == ds.dcwd
                && ds.dcwd in old(ds.dirs) && ds.dirs == DirStack.Bumped(old(ds.dirs), ds.dcwd)
                && Unused(old(procs), procs[pp].index) && NextIndex(old(procs), old(pmaxindex), procs[pp].index)
                && pcurrent == (if old(pcurrent) == NULL then pp else old(pcurrent))
                && pprevious == (if old(pcurrent) != NULL && old(pprevious) == NULL then pp else old(pprevious))
    {
      hide *;
      FreshExists(procs.Keys);
      pp :| pp != NULL && pp !in procs;
      var flags := StartFlags(amp, timed, pipe, err);
      StartState(amp, timed, pipe, err);
      if pcurrjob != NULL {
        AddFriend(pp, pid, flags);
      } else {
        AddLeader(pp, pid, flags);
      }
    }

    method AddFriend(pp: Ptr, pid: nat, flags: Flags)
      requires Valid() && pcurrjob != NULL && pp != NULL && pp !in procs && OneState(flags)
      requires pid > 0 && forall p :: p in procs ==> procs[p].pid != pid
      modifies this`procs, this`first, this`list, this`jobs, this`lead
      ensures Valid() && list == [pp] + old(list) && procs.Keys == old(procs).Keys + {pp}
      ensures procs[pp].pid == pid && procs[pp].flags == flags
      ensures pcurrjob in old(jobs) && jobs == old(jobs)[pcurrjob := old(jobs)[pcurrjob] + [pp]]
    {
      hide Listed, OnList, Rings, Led, Named, Indexed, States, Holding, Picked, Joined, Unused, NextIndex, Swept, LeadWithout;
      hide DirStack.Stacked, DirStack.Marked, DirStack.Ring, DirStack.Stack.Valid, DirStack.Stack.Apart, DirStack.Bumped;
      hide OneState, Refs, FriendRing, FriendChain;
      var l := pcurrjob;
      LeaderInTable(procs, jobs, lead, l);
      var x := Process(first, l, NULL, flags, procs[l].index, pid, procs[l].pid, 0, 0);
      var fp := Tail(procs, l, jobs[l]);
      ds.NullFree();
      JoinAll(procs, first, list, jobs, lead, pmaxindex, ds.dirs, ds.head, l, pp, x, fp);
      JoinPicked(jobs, l, pp, pcurrent, pprevious);
      JoinedFacts(procs, pp, x, fp);
      procs := procs[pp := x];
      procs := procs[fp := procs[fp].(friends := pp)];
      first, list := pp, [pp] + list;
      jobs, lead := jobs[l := jobs[l] + [pp]], lead[pp := l];
    }

    method AddLeader(pp: Ptr, pid: nat, flags: Flags)
      requires Valid() && pcurrjob == NULL && pp != NULL && pp !in procs && OneState(flags)
      requires pid > 0 && forall p :: p in procs ==> procs[p].pid != pid
      modifies this, ds`dirs
      ensures Valid() && list == [pp] + old(list) && procs.Keys == old(procs).Keys + {pp}
      ensures procs[pp].pid == pid && procs[pp].flags == flags
      ensures jobs == old(jobs)[pp := [pp]] && pcurrjob == pp && procs[pp].cwd == ds.dcwd
      ensures ds.dcwd in old(ds.dirs) && ds.dirs == DirStack.Bumped(old(ds.dirs), ds.dcwd)
      ensures Unused(old(procs), procs[pp].index) && NextIndex(old(procs), old(pmaxindex), procs[pp].index)
      ensures pcurrent == if old(pcurrent) == NULL then pp else old(pcurrent)
      ensures pprevious == if old(pcurrent) != NULL && old(pprevious) == NULL then pp else old(pprevious)
    {
      hide Listed, OnList, Rings, Led, Named, Indexed, States, Holding, Picked, Joined, Unused, NextIndex, Swept, LeadWithout;
      hide DirStack.Stacked, DirStack.Marked, DirStack.Ring, DirStack.Stack.Valid, DirStack.Stack.Apart, DirStack.Bumped;
      hide OneState, Refs, FriendRing, FriendChain;
      ds.NullFree();
      var u, max', cur', prev' :=
        StartJob(procs, first, pmaxindex, pcurrent, pprevious, ds.dcwd, pp, pid, flags, list, jobs, lead, ds.dirs, ds.head);
      ds.Hold();
      procs, first, pcurrjob, pmaxindex, pcurrent, pprevious := u, pp, pp, max', cur', prev';
      list, jobs, lead := [pp] + list, jobs[pp := [pp]], lead[pp := pp];
    }

    /**
     One turn of `pchild`: what `wait3` reports of a child is recorded. If that
     settles the state of its job, the job becomes the current one when it has
     stopped and gives up being current when it has finished; a finished
     background job is flushed at once if the user asked to be notified.
     */
    method Pchild(pid: nat, st: Status, cpu: nat, limit: int, notify: bool)
      requires Valid() && pid > 0
      requires forall p :: p in procs && procs[p].pid == pid ==> Running in procs[p].flags || Stopped in procs[p].flags
      modifies this
      ensures Valid() && list == old(list)
      ensures (forall p :: p in old(procs) ==> old(procs)[p].pid != pid) ==> procs == old(procs) && jobs == old(jobs)
      ensures (forall p :: p in old(procs) ==> old(procs)[p].pid != pid) ==>
                pcurrent == old(pcurrent) && pprevious == old(pprevious)
      ensures forall pp :: pp in old(procs) && old(procs)[pp].pid == pid ==> pp in old(lead) && Told1(pp, st, cpu, notify)
    {
      hide Listed, OnList, Rings, Led, Named, Indexed, States, Holding, Picked, Joined, Unused, NextIndex, Swept, LeadWithout;
      hide DirStack.Stacked, DirStack.Marked, DirStack.Ring, DirStack.Stack.Valid, DirStack.Stack.Apart, DirStack.Bumped;
      hide OneState, Refs, FriendRing, FriendChain;
      hide Settled, SomeStopped, SomeWith, StatesAfter, StopsReported, SameShape;
      var pp := FindPid(procs, first, pid, list);
      if pp == NULL {
        return;
      }
      LiveLed(procs, jobs, lead, pp);
      UniquePid(procs, pp, pid);
      Note(pp, st, cpu, limit, notify);
    }

    method Note(pp: Ptr, st: Status, cpu: nat, limit: int, notify: bool)
      requires Valid() && pp in procs && procs[pp].pid != 0 && pp in lead && lead[pp] in jobs
      requires Running in procs[pp].flags || Stopped in procs[pp].flags
      modifies this
      ensures Valid() && list == old(list) && Told1(pp, st, cpu, notify)
    {
      hide Listed, OnList, Rings, Led, Named, Indexed, States, Holding, Picked, Joined, Unused, NextIndex, Swept, LeadWithout;
      hide DirStack.Stacked, DirStack.Marked, DirStack.Ring, DirStack.Stack.Valid, DirStack.Stack.Apart, DirStack.Bumped;
      hide OneState, Refs, FriendRing, FriendChain;
      hide Settled, SomeStopped, SomeWith, StatesAfter, StatesKept, StopsReported, SameShape;
      ghost var l, t := lead[pp], procs;
      ghost var r := RingLead(procs, jobs, lead, pp);
      var u, seen := Record(procs, pp, st, cpu, limit, r);
      SameMembers(procs, u, r, jobs[l], pp, st, cpu);
      ShapeAll(procs, u, first, list, jobs, lead, pmaxindex, ds.dirs, ds.head);
      ShapeAt(procs, u, pp);
      procs := u;
      if Running !in seen && Reported !in seen {
        Settle(pp, seen, notify);
        AfterKept(t, u, procs, old(jobs)[l], pp, st, cpu);
      }
    }

    /** The second half of `pchild`, for a job that no longer runs. */
    method Settle(pp: Ptr, seen: Flags, notify: bool)
      requires Valid() && pp in procs && procs[pp].pid != 0 && pp in lead && lead[pp] in jobs
      modifies this
      ensures Valid() && list == old(list) && StatesKept(old(procs), procs, old(jobs)[old(lead)[pp]])
      ensures var l := old(lead)[pp];
              if Stopped in seen then
                && jobs == old(jobs) && pcurrent == l
                && pprevious == if old(pcurrent) != NULL && old(pcurrent) != l then old(pcurrent) else old(pprevious)
              else
                && pcurrent != l && pprevious != l
                && (l != old(pcurrent) ==> pcurrent == old(pcurrent))
                && jobs == if Foregnd !in seen && (notify || Notify in seen) then old(jobs) - {l} else old(jobs)
      ensures StopsReported(procs, old(jobs)[old(lead)[pp]])
      ensures Foregnd !in seen && !notify && Notify !in seen ==> var l := old(lead)[pp]; l in procs && NeedNote in procs[l].flags
    {
      hide Listed, OnList, Rings, Led, Named, Indexed, States, Holding, Picked, Joined, Unused, NextIndex, Swept, LeadWithout;
      hide DirStack.Stacked, DirStack.Marked, DirStack.Ring, DirStack.Stack.Valid, DirStack.Stack.Apart, DirStack.Bumped;
      hide OneState, Refs, FriendRing, FriendChain;
      hide Settled, SomeStopped, SomeWith, StatesAfter, StatesKept, StopsReported, SameShape;
      var l := Leader(pp);
      ghost var t, r := procs, jobs[l];
      SweepJob(pp, ReportedIfStopped);
      SweptReported(t, r);
      if Stopped in seen {
        Bring(l);
      } else {
        Unmark(l);
      }
      ghost var u := procs;
      KeptFacts(t, u, r);
      Announce(pp, l, seen, notify);
      KeptReported(u, procs, r);
      KeptTransitive(t, u, procs, r);
    }

    /** Tell the user of a background job at once, or leave a note to do so later. */
    method Announce(pp: Ptr, l: Ptr, seen: Flags, notify: bool)
      requires Valid() && pp in procs && pp in lead && lead[pp] == l && l in jobs
      requires Stopped !in seen ==> l != pcurrent && l != pprevious
      modifies this
      ensures Valid() && list == old(list) && pcurrent == old(pcurrent) && pprevious == old(pprevious)
      ensures StatesKept(old(procs), procs, old(jobs)[l])
      ensures jobs == if Stopped !in seen && Foregnd !in seen && (notify || Notify in seen) then old(jobs) - {l} else old(jobs)
      ensures Foregnd !in seen && !notify && Notify !in seen ==> l in procs && NeedNote in procs[l].flags
    {
      hide Listed, OnList, Rings, Led, Named, Indexed, States, Holding, Picked, Joined, Unused, NextIndex, Swept, LeadWithout;
      hide DirStack.Stacked, DirStack.Marked, DirStack.Ring, DirStack.Stack.Valid, DirStack.Stack.Apart, DirStack.Bumped;
      hide OneState, Refs, FriendRing, FriendChain;
      hide Settled, SomeStopped, SomeWith, StatesAfter, StatesKept, StopsReported, SameShape;
      ghost var t, r := procs, jobs[l];
      KeptSame(t, r);
      LeaderInTable(procs, jobs, lead, l);
      if Foregnd in seen {
      } else if notify || Notify in seen {
        if Stopped !in seen {
          Pflush(pp);
          KeptFlush(t, r);
        }
      } else {
        SweepOne(l, Noted);
        KeptOne(t, procs, l, r);
      }
    }

    /** Go round the ring of `pp` changing flags other than states. */
    method SweepJob(pp: Ptr, f: Process -> Process)
      requires Valid() && pp in lead && lead[pp] in jobs && KeepsState(f)
      modifies this`procs
      ensures procs == Swept(old(procs), old(jobs[lead[pp]]), f) && StatesKept(old(procs), procs, old(jobs[lead[pp]]))
      ensures Valid()
    {
      hide Listed, OnList, Rings, Led, Named, Indexed, States, Holding, Picked, Joined, Unused, NextIndex, Swept, LeadWithout;
      hide DirStack.Stacked, DirStack.Marked, DirStack.Ring, DirStack.Stack.Valid, DirStack.Stack.Apart, DirStack.Bumped;
      hide OneState, Refs, FriendRing, FriendChain;
      hide KeepsState, Settled, SomeStopped, SomeWith, StatesAfter, StatesKept, SameShape;
      ghost var r := RingLead(procs, jobs, lead, pp);
      SweptShape(procs, r, f);
      var u, seen := Sweep(procs, pp, f, r);
      SweptSame(procs, r, jobs[lead[pp]], f);
      ShapeAll(procs, u, first, list, jobs, lead, pmaxindex, ds.dirs, ds.head);
      procs := u;
    }

    /** Change flags of one process, other than its state. */
    method SweepOne(l: Ptr, f: Process -> Process)
      requires Valid() && l in procs && KeepsState(f)
      modifies this`procs
      ensures Valid() && procs == old(procs)[l := f(old(procs)[l])] && StatesKept(old(procs), procs, [l])
    {
      hide Listed, OnList, Rings, Led, Named, Indexed, States, Holding, Picked, Joined, Unused, NextIndex, Swept, LeadWithout;
      hide DirStack.Stacked, DirStack.Marked, DirStack.Ring, DirStack.Stack.Valid, DirStack.Stack.Apart, DirStack.Bumped;
      hide OneState, Refs, FriendRing, FriendChain;
      hide KeepsState, Settled, SomeStopped, SomeWith, StatesAfter, StatesKept, SameShape;
      ghost var u := procs[l := f(procs[l])];
      SweptOneShape(procs, l, f);
      ShapeAll(procs, u, first, list, jobs, lead, pmaxindex, ds.dirs, ds.head);
      procs := procs[l := f(procs[l])];
    }

    /** A stopped job becomes current; the one that was current becomes previous. */
    method Bring(l: Ptr)
      requires Valid() && l in jobs
      modifies this`pcurrent, this`pprevious
      ensures Valid() && pcurrent == l
      ensures pprevious == if old(pcurrent) != NULL && old(pcurrent) != l then old(pcurrent) else old(pprevious)
    {
      hide Listed, OnList, Rings, Led, Named, Indexed, States, Holding, Picked, Joined, Unused, NextIndex, Swept, LeadWithout;
      hide DirStack.Stacked, DirStack.Marked, DirStack.Ring, DirStack.Stack.Valid, DirStack.Stack.Apart, DirStack.Bumped;
      hide OneState, Refs, FriendRing, FriendChain;
      LeaderInTable(procs, jobs, lead, l);
      NotNull(procs, first, list, l);
      PickedBring(jobs, l, pcurrent, pprevious);
      if pcurrent != NULL && pcurrent != l {
        pprevious := pcurrent;
      }
      pcurrent := l;
    }

    /** A job gives up being current or previous. */
    method Unmark(l: Ptr)
      requires Valid() && l in jobs
      modifies this`pcurrent, this`pprevious
      ensures Valid() && pcurrent != l && pprevious != l && (l != old(pcurrent) ==> pcurrent == old(pcurrent))
      ensures l != old(pcurrent) && l != old(pprevious) ==> pprevious == old(pprevious)
    {
      hide Listed, OnList, Rings, Led, Named, Indexed, States, Holding, Picked, Joined, Unused, NextIndex, Swept, LeadWithout;
      hide DirStack.Stacked, DirStack.Marked, DirStack.Ring, DirStack.Stack.Valid, DirStack.Stack.Apart, DirStack.Bumped;
      hide OneState, Refs, FriendRing, FriendChain;
      LeaderInTable(procs, jobs, lead, l);
      NotNull(procs, first, list, l);
      pcurrent, pprevious := Pclrcurr(procs, first, pcurrent, pprevious, l, list, jobs, lead);
      PickedFewer(jobs, l, pcurrent, pprevious);
    }

    /** What a report on `pp` does to the marks, the jobs and the states. */
    twostate predicate Told1(pp: Ptr, st: Status, cpu: nat, notify: bool)
      requires pp in old(lead) && old(lead)[pp] in old(jobs)
      reads this
    {
      var l := old(lead)[pp];
      var r := old(jobs)[l];
      && StatesAfter(old(procs), procs, r, pp, st, cpu)
      && (!Settled(old(procs), r, pp) ==> jobs == old(jobs) && pcurrent == old(pcurrent) && pprevious == old(pprevious))
      && (Settled(old(procs), r, pp) && SomeStopped(old(procs), r, pp, st) ==>
            && jobs == old(jobs) && pcurrent == l
            && pprevious == if old(pcurrent) != NULL && old(pcurrent) != l then old(pcurrent) else old(pprevious))
      && (Settled(old(procs), r, pp) && !SomeStopped(old(procs), r, pp, st) ==>
            && pcurrent != l && pprevious != l
            && (l != old(pcurrent) ==> pcurrent == old(pcurrent))
            && jobs == if !SomeWith(old(procs), r, Foregnd) && (notify || SomeWith(old(procs), r, Notify))
                       then old(jobs) - {l} else old(jobs))
      && (Settled(old(procs), r, pp) ==> StopsReported(procs, r))
      && (Settled(old(procs), r, pp) && !SomeWith(old(procs), r, Foregnd) && !notify && !SomeWith(old(procs), r, Notify) ==>
            l in procs && NeedNote in procs[l].flags)
    }

    /** `pflush`: every process of the job is marked for deletion and the job forgotten. */
    method Pflush(pp: Ptr)
      requires Valid() && pp in procs
      modifies this
      ensures Valid() && list == old(list) && first == old(first)
      ensures pp !in old(lead) ==> procs == old(procs) && jobs == old(jobs) && lead == old(lead)
      ensures pp !in old(lead) ==> pcurrent == old(pcurrent) && pprevious == old(pprevious) && pcurrjob == old(pcurrjob)
      ensures pp in old(lead) ==> var l := old(lead)[pp];
                && l in old(jobs) && jobs == old(jobs) - {l} && lead == LeadWithout(old(lead), l)
                && procs == Swept(old(procs), old(jobs)[l], Flushed) && procs.Keys == old(procs).Keys
                && (forall p :: p in old(procs) && p in procs ==>
                      if p in old(jobs)[l] then Dropped(old(procs)[p], procs[p]) else procs[p] == old(procs)[p])
                && (l != old(pcurrent) ==> pcurrent == old(pcurrent))
                && (l != old(pcurrent) && l != old(pprevious) ==> pprevious == old(pprevious))
                && pcurrjob == if l == old(pcurrjob) then NULL else old(pcurrjob)
    {
      hide Listed, OnList, Rings, Led, Named, Indexed, States, Holding, Picked, Joined, Unused, NextIndex, Swept, LeadWithout;
      hide DirStack.Stacked, DirStack.Marked, DirStack.Ring, DirStack.Stack.Valid, DirStack.Stack.Apart, DirStack.Bumped;
      hide OneState, Refs, FriendRing, FriendChain;
      LiveLed(procs, jobs, lead, pp);
      if procs[pp].pid == 0 {
        return;
      }
      var l := Leader(pp);
      LeaderInTable(procs, jobs, lead, l);
      NotNull(procs, first, list, l);
      pcurrent, pprevious := Pclrcurr(procs, first, pcurrent, pprevious, l, list, jobs, lead);
      if l == pcurrjob {
        pcurrjob := NULL;
      }
      var idx := procs[l].index;
      FlushedEach(procs, jobs[l]);
      Wipe(l, idx);
    }

    method Wipe(l: Ptr, idx: nat)
      requires Listed(procs, first, list) && OnList(procs, list) && Rings(procs, jobs) && Led(procs, jobs, lead)
      requires Named(procs) && Indexed(procs, jobs, pmaxindex) && States(procs)
      requires Holding(procs, list, lead, ds.dirs, ds.head)
      requires l in jobs && l in procs && procs[l].index == idx
      modifies this`procs, this`pmaxindex, this`jobs, this`lead
      ensures Listed(procs, first, list) && OnList(procs, list) && Rings(procs, jobs) && Led(procs, jobs, lead)
      ensures Named(procs) && Indexed(procs, jobs, pmaxindex) && States(procs)
      ensures Holding(procs, list, lead, ds.dirs, ds.head)
      ensures jobs == old(jobs) - {l} && lead == LeadWithout(old(lead), l)
      ensures procs == Swept(old(procs), old(jobs)[l], Flushed)
    {
      hide *;
      FlushedLinks();
      LeaderInTable(procs, jobs, lead, l);
      SweptKeepsLinks(procs, jobs[l], Flushed, first, list);
      var u, seen := Sweep(procs, l, Flushed, jobs[l]);
      var m := pmaxindex;
      if idx == pmaxindex {
        m := MaxIndex(u, first, list);
      }
      FlushRings(procs, jobs, lead, l);
      FlushLed(procs, jobs, lead, l);
      FlushNamed(procs, jobs[l]);
      FlushStates(procs, jobs[l]);
      FlushIndices(procs, jobs, lead, l, pmaxindex, m);
      FlushHolding(procs, list, jobs, lead, l, ds.dirs, ds.head);
      procs, pmaxindex, jobs, lead := u, m, jobs - {l}, LeadWithout(lead, l);
    }

    /** `pstart`: resume a job in the foreground or the background. */
    method Pstart(l: Ptr, foregnd: bool)
      requires Valid() && l in jobs
      modifies this`procs, this`pcurrent, this`pprevious
      ensures Valid()
      ensures foregnd ==> procs == Swept(old(procs), jobs[l], ResumedFg)
      ensures !foregnd ==> procs == Swept(old(procs), jobs[l], ResumedBg)
      ensures procs.Keys == old(procs).Keys
      ensures forall p :: p in old(procs) && p in procs ==>
                if p in jobs[l] then Going(old(procs)[p], procs[p], foregnd) else procs[p] == old(procs)[p]
      ensures foregnd ==> pcurrent == old(pcurrent) && pprevious == old(pprevious)
      ensures !foregnd ==> pcurrent != l && pprevious != l && (l != old(pcurrent) ==> pcurrent == old(pcurrent))
    {
      hide Listed, OnList, Rings, Led, Named, Indexed, States, Holding, Picked, Joined, Unused, NextIndex, Swept, LeadWithout;
      hide DirStack.Stacked, DirStack.Marked, DirStack.Ring, DirStack.Stack.Valid, DirStack.Stack.Apart, DirStack.Bumped;
      hide OneState, Refs, FriendRing, FriendChain;
      hide Settled, SomeStopped, SomeWith, StatesAfter, StatesKept, StopsReported, SameShape;
      hide Resumed, ResumedFg, ResumedBg, Going;
      ghost var t, r := procs, jobs[l];
      if foregnd {
        Resume(l, ResumedFg);
      } else {
        Resume(l, ResumedBg);
        Unmark(l);
      }
      AllGoing(t, r, foregnd);
    }

    method Resume(l: Ptr, f: Process -> Process)
      requires Valid() && l in jobs && (f == ResumedFg || f == ResumedBg)
      modifies this`procs
      ensures Valid() && procs == Swept(old(procs), jobs[l], f)
    {
      hide Listed, OnList, Rings, Led, Named, Indexed, States, Holding, Picked, Joined, Unused, NextIndex, Swept, LeadWithout;
      hide DirStack.Stacked, DirStack.Marked, DirStack.Ring, DirStack.Stack.Valid, DirStack.Stack.Apart, DirStack.Bumped;
      hide OneState, Refs, FriendRing, FriendChain;
      hide Settled, SomeStopped, SomeWith, StatesAfter, StatesKept, StopsReported, SameShape;
      LeaderInTable(procs, jobs, lead, l);
      ResumedShape(procs, jobs[l], f);
      var u, seen := Sweep(procs, l, f, jobs[l]);
      ShapeAll(procs, u, first, list, jobs, lead, pmaxindex, ds.dirs, ds.head);
      procs := u;
    }

    /** `pendjob`: the job being built is complete. */
    method Pendjob()
      requires Valid()
      modifies this`pcurrjob
      ensures Valid() && pcurrjob == NULL
    {
      hide Listed, OnList, Rings, Led, Named, Indexed, States, Holding, Picked, Joined, Unused, NextIndex, Swept, LeadWithout;
      hide DirStack.Stacked, DirStack.Marked, DirStack.Ring, DirStack.Stack.Valid, DirStack.Stack.Apart, DirStack.Bumped;
      hide OneState, Refs, FriendRing, FriendChain;
      pcurrjob := NULL;
    }

    /**
     The loop at the head of `pwait`: every flushed process is unlinked and freed,
     and with a job's leader goes its hold on a directory.
     */
    method Reap()
      requires Valid()
      modifies this`procs, this`first, this`list, ds`dirs
      ensures Valid()
      ensures list == Alive(old(procs), old(list)) && SameButNext(old(procs), procs)
    {
      hide Listed, OnList, Rings, Led, Named, Indexed, States, Holding, Picked, Joined, Unused, NextIndex, Swept, LeadWithout;
      hide DirStack.Stacked, DirStack.Marked, DirStack.Ring, DirStack.Stack.Valid, DirStack.Stack.Apart, DirStack.Bumped;
      hide OneState, Refs, FriendRing, FriendChain;
      hide Alive, SameButNext, Removed;
      var fp, pp := NULL, first;
      ghost var done, rest := [], list;
      ListedHead(procs, first, list);
      SameButNextSelf(procs);
      assert done + rest == list;
      while pp != NULL
        invariant Valid() && list == done + rest && SameButNext(old(procs), procs)
        invariant fp == (if done == [] then NULL else done[|done| - 1]) && (fp != NULL ==> fp in procs)
        invariant pp == (if rest == [] then NULL else rest[0]) && (rest != [] ==> pp in procs && pp != NULL)
        invariant Alive(old(procs), old(list)) == done + Alive(old(procs), rest)
        decreases |rest|
      {
        AliveStep(old(procs), procs, pp, done, rest);
        ListedNext(procs, first, list, done, rest);
        if procs[pp].pid == 0 {
          var next := procs[pp].next;
          ghost var t := procs;
          Unchain(fp, pp, done, rest);
          SameButNextStep(old(procs), t, procs);
          pp := next;
          rest := rest[1..];
        } else {
          fp, pp := pp, procs[pp].next;
          done, rest := done + [fp], rest[1..];
        }
        assert list == done + rest;
        ListedIn(procs, first, list, done, rest);
      }
      AliveNone(old(procs));
      assert done + [] == done;
    }

    /** Unlink one flushed process, whose predecessor on the list is `fp`, and free it. */
    method Unchain(fp: Ptr, pp: Ptr, ghost done: seq<Ptr>, ghost rest: seq<Ptr>)
      requires Valid() && list == done + rest && rest != [] && rest[0] == pp && pp in procs && procs[pp].pid == 0
      requires fp == (if done == [] then NULL else done[|done| - 1]) && (fp != NULL ==> fp in procs)
      modifies this`procs, this`first, this`list, ds`dirs
      ensures Valid() && list == done + rest[1..]
      ensures procs == Removed(old(procs), fp, pp)
      ensures var d := old(procs)[pp].cwd;
              d != NULL ==> d in old(ds.dirs) && old(ds.dirs)[d].count > 0
      ensures var d := old(procs)[pp].cwd;
              ds.dirs == AfterRelease(old(ds.dirs), d, ds.stack)
    {
      hide Listed, OnList, Rings, Led, Named, Indexed, States, Holding, Picked, Joined, Unused, NextIndex, Swept, LeadWithout;
      hide DirStack.Stacked, DirStack.Marked, DirStack.Ring, DirStack.Stack.Valid, DirStack.Stack.Apart, DirStack.Bumped;
      hide OneState, Refs, FriendRing, FriendChain;
      hide Removed;
      var next, cwd := procs[pp].next, procs[pp].cwd;
      RemoveAll(procs, first, list, jobs, lead, pmaxindex, fp, pp, done, rest);
      ds.NullFree();
      RemoveHolding(procs, list, lead, ds.dirs, ds.head, fp, pp, done, rest, ds.stack);
      RemovedIs(procs, fp, pp);
      if fp == NULL {
        first := next;
      } else {
        procs := procs[fp := procs[fp].(next := next)];
      }
      procs := procs - {pp};
      list := done + rest[1..];
      if cwd != NULL {
        ds.Release(cwd);
      }
    }

    /** A command on the directory stack, between job steps: no job loses its directory. */
    method Chdir(cmd: Command) returns (out: DirStack.Outcome)
      requires Valid()
      modifies ds
      ensures Valid()
      ensures forall p :: p in procs && procs[p].cwd != NULL ==>
                && procs[p].cwd in old(ds.dirs) && procs[p].cwd in ds.dirs
                && ds.dirs[procs[p].cwd].name == old(ds.dirs)[procs[p].cwd].name
    {
      hide Listed, OnList, Rings, Led, Named, Indexed, States, Holding, Picked, Joined, Unused, NextIndex, Swept, LeadWithout;
      hide DirStack.Stacked, DirStack.Marked, DirStack.Ring, DirStack.Stack.Valid, DirStack.Stack.Apart, DirStack.Bumped;
      hide OneState, Refs, FriendRing, FriendChain;
      hide DirStack.Depth;
      ghost var was := ds.dirs;
      match cmd {
        case Cd(word, reach, name) => out := ds.Cd(word, reach, name);
        case Pushd(word, reach, name) => out := ds.Pushd(word, reach, name);
        case PushdSwap(reach) => out := ds.PushdSwap(reach);
        case Popd(reach) => out := ds.Popd(reach);
        case PopdAt(word) => out := ds.PopdAt(word);
      }
      assert CountsKept(was, ds.dirs);
      ds.NullFree();
      HoldingKept(procs, list, lead, was, ds.dirs, ds.head);
      Homes(procs, list, lead, was, ds.head);
      Homes(procs, list, lead, ds.dirs, ds.head);
    }

    /** The leader of a process's job. */
    method Leader(p: Ptr) returns (fp: Ptr)
      requires Rings(procs, jobs) && Led(procs, jobs, lead) && Named(procs) && p in lead
      ensures fp == lead[p]
    {
      ghost var r := RingLead(procs, jobs, lead, p);
      fp := FindLeader(procs, p, r, lead[p]);
    }
  }

  lemma {:induction false} LeaderInTable(t: Table, jobs: map<Ptr, seq<Ptr>>, lead: map<Ptr, Ptr>, l: Ptr)
    requires Rings(t, jobs) && Led(t, jobs, lead) && l in jobs
    ensures FriendRing(t, jobs[l]) && jobs[l][0] == l && l in jobs[l]
    ensures l in t && l in lead && lead[l] == l && t[l].pid != 0
  {
    assert jobs[l][0] == l;
  }

  lemma {:induction false} JobsInTable(t: Table, jobs: map<Ptr, seq<Ptr>>, lead: map<Ptr, Ptr>, p: Ptr)
    requires Led(t, jobs, lead) && p !in t
    ensures p !in jobs && p !in lead
  {
  }

  lemma {:induction false} NotNull(t: Table, first: Ptr, list: seq<Ptr>, p: Ptr)
    requires Listed(t, first, list) && OnList(t, list) && p in t
    ensures p != NULL
  {
    ListedFacts(t, first, list);
  }

  lemma {:induction false} LiveLed(t: Table, jobs: map<Ptr, seq<Ptr>>, lead: map<Ptr, Ptr>, p: Ptr)
    requires Rings(t, jobs) && Led(t, jobs, lead) && p in t
    ensures t[p].pid != 0 <==> p in lead
    ensures p in lead ==> lead[p] in jobs
  {
  }

  /** The ring of a process's job read from that process, and who leads it. */
  lemma {:induction false} RingLead(t: Table, jobs: map<Ptr, seq<Ptr>>, lead: map<Ptr, Ptr>, p: Ptr) returns (r: seq<Ptr>)
    requires Rings(t, jobs) && Led(t, jobs, lead) && Named(t) && p in lead
    ensures FriendRing(t, r) && r[0] == p && lead[p] in r
    ensures forall q :: q in r <==> q in jobs[lead[p]]
    ensures forall q :: q in r ==> q in t && q in lead && lead[q] == lead[p]
    ensures forall q :: q in r ==> (t[q].pid == t[q].jobid <==> q == lead[p])
  {
    hide FriendRing, Named, Labelled;
    assert jobs[lead[p]][0] == lead[p] && FriendRing(t, jobs[lead[p]]);
    r := RingFrom(t, jobs[lead[p]], p);
    forall q | q in r ensures q in t && q in lead && lead[q] == lead[p] && (t[q].pid == t[q].jobid <==> q == lead[p]) {
      InLead(t, jobs, lead, q);
      LeaderById(t, jobs, lead, q);
    }
  }

  lemma {:induction false} InLead(t: Table, jobs: map<Ptr, seq<Ptr>>, lead: map<Ptr, Ptr>, q: Ptr)
    requires Led(t, jobs, lead) && q in lead
    ensures q in t
  {
  }

  /** Along the ring from `p` to the process whose id is the job's. */
  method FindLeader(t: Table, p: Ptr, ghost r: seq<Ptr>, ghost l: Ptr) returns (fp: Ptr)
    requires FriendRing(t, r) && r[0] == p && l in r
    requires forall q :: q in r ==> q in t && (t[q].pid == t[q].jobid <==> q == l)
    ensures fp == l
  {
    FriendRingEach(t, r);
    ghost var k :| 0 <= k < |r| && r[k] == l;
    ghost var i := 0;
    fp := p;
    while t[fp].pid != t[fp].jobid
      invariant 0 <= i <= k && fp == r[i]
      decreases k - i
    {
      fp := t[fp].friends;
      i := i + 1;
    }
  }

  // -------- going round a ring --------

  ghost function Swept(t: Table, r: seq<Ptr>, f: Process -> Process): Table
  {
    map p | p in t :: if p in r then f(t[p]) else t[p]
  }

  /**
   `do { ... } while ((fp = fp->p_friends) != pp)`: apply `f` to every process of
   the job and gather the flags that result.
   */
  method Sweep(t: Table, pp: Ptr, f: Process -> Process, ghost r: seq<Ptr>) returns (u: Table, seen: Flags)
    requires FriendRing(t, r) && r[0] == pp && forall x :: f(x).friends == x.friends
    ensures u == Swept(t, r, f)
    ensures forall fl :: fl in seen <==> exists p :: p in r && p in t && fl in f(t[p]).flags
  {
    FriendRingEach(t, r);
    u, seen := t, {};
    var fp := pp;
    ghost var i := 0;
    while true
      invariant 0 <= i < |r| && fp == r[i] && u == Swept(t, r[..i], f)
      invariant forall fl :: fl in seen <==> exists p :: p in r[..i] && p in t && fl in f(t[p]).flags
      decreases |r| - i
    {
      assert r[..i + 1] == r[..i] + [fp] && fp !in r[..i];
      u := u[fp := f(u[fp])];
      seen := seen + u[fp].flags;
      fp := u[fp].friends;
      i := i + 1;
      if fp == pp {
        assert r[..i] == r;
        return;
      }
    }
  }

  // -------- choosing a current job --------

  predicate Candidate(t: Table, p: Ptr, cur: Ptr, pp: Ptr)
    requires p in t
  {
    p != cur && p != pp && t[p].pid != 0 && t[p].pid == t[p].jobid
  }

  /** `pgetcurr`: the most recent job that is neither `cur` nor `pp`, preferably a stopped one. */
  method Pgetcurr(t: Table, first: Ptr, cur: Ptr, pp: Ptr, ghost list: seq<Ptr>) returns (r: Ptr, ghost k: nat)
    requires Listed(t, first, list)
    ensures r == NULL <==> forall q :: q in list && q in t ==> !Candidate(t, q, cur, pp)
    ensures r != NULL ==> r in t && Candidate(t, r, cur, pp) && k < |list| && list[k] == r
    ensures r != NULL && Stopped in t[r].flags ==>
              forall q :: q in list[..k] && q in t && Candidate(t, q, cur, pp) ==> Stopped !in t[q].flags
    ensures r != NULL && Stopped !in t[r].flags ==>
              forall q :: q in list && q in t && Candidate(t, q, cur, pp) ==> Stopped !in t[q].flags && q !in list[..k]
  {
    ListedFacts(t, first, list);
    r, k := NULL, 0;
    var np := first;
    ghost var i := 0;
    while np != NULL
      invariant 0 <= i <= |list| && Listed(t, np, list[i..])
      invariant forall q :: q in list[..i] && q in t && Candidate(t, q, cur, pp) ==> Stopped !in t[q].flags
      invariant r == NULL ==> forall q :: q in list[..i] && q in t ==> !Candidate(t, q, cur, pp)
      invariant r != NULL ==> r in t && Candidate(t, r, cur, pp) && k < i && list[k] == r && Stopped !in t[r].flags
      invariant r != NULL ==> forall q :: q in list[..k] && q in t ==> !Candidate(t, q, cur, pp)
      decreases |list| - i
    {
      assert np == list[i] && list[i..][1..] == list[i + 1..] && list[..i + 1] == list[..i] + [np];
      if Candidate(t, np, cur, pp) {
        if Stopped in t[np].flags {
          return np, i;
        }
        if r == NULL {
          r, k := np, i;
        }
      }
      np := t[np].next;
      i := i + 1;
    }
    assert list[..i] == list;
  }

  /** A candidate is the leader of an unflushed job. */
  lemma {:induction false} CandidateLeads(t: Table, jobs: map<Ptr, seq<Ptr>>, lead: map<Ptr, Ptr>, p: Ptr, cur: Ptr, pp: Ptr)
    requires Rings(t, jobs) && Led(t, jobs, lead) && Named(t) && p in t && Candidate(t, p, cur, pp)
    ensures p in jobs && p != cur && p != pp
  {
    LeaderById(t, jobs, lead, p);
  }

  /** `pclrcurr`: make sure that `pp` is neither the current nor the previous job. */
  method Pclrcurr(t: Table, first: Ptr, cur: Ptr, prev: Ptr, pp: Ptr,
                  ghost list: seq<Ptr>, ghost jobs: map<Ptr, seq<Ptr>>, ghost lead: map<Ptr, Ptr>)
    returns (cur': Ptr, prev': Ptr)
    requires Listed(t, first, list) && OnList(t, list)
    requires Rings(t, jobs) && Led(t, jobs, lead) && Named(t) && Picked(jobs, cur, prev) && pp != NULL
    ensures Picked(jobs - {pp}, cur', prev') && Full(jobs, cur', prev')
    ensures pp != cur ==> cur' == cur
    ensures pp != cur && pp != prev ==> prev' == prev
    ensures pp == cur && prev != NULL ==> cur' == prev
    ensures pp == cur && cur' == NULL ==> forall l :: l in jobs ==> l == pp
  {
    hide Listed, OnList, Rings, Led, Named;
    cur', prev' := cur, prev;
    ghost var k;
    if pp == cur {
      if prev != NULL {
        cur' := prev;
        prev', k := Pgetcurr(t, first, cur', pp, list);
        if prev' == NULL {
          OnlyJob(t, jobs, lead, list, cur', pp);
        }
      } else {
        cur', k := Pgetcurr(t, first, cur, pp, list);
        prev', k := Pgetcurr(t, first, cur', pp, list);
        if cur' == NULL {
          OnlyJob(t, jobs, lead, list, cur, pp);
        } else {
          CandidateLeads(t, jobs, lead, cur', cur, pp);
        }
      }
    } else if pp == prev {
      prev', k := Pgetcurr(t, first, cur, pp, list);
      if prev' == NULL {
        OnlyJob(t, jobs, lead, list, cur, pp);
      }
    }
    if prev' != NULL && prev' != prev {
      CandidateLeads(t, jobs, lead, prev', cur', pp);
    }
  }

  lemma {:induction false} OnlyJob(t: Table, jobs: map<Ptr, seq<Ptr>>, lead: map<Ptr, Ptr>, list: seq<Ptr>, cur: Ptr, pp: Ptr)
    requires Rings(t, jobs) && Led(t, jobs, lead) && Named(t) && OnList(t, list)
    requires forall q :: q in list && q in t ==> !Candidate(t, q, cur, pp)
    ensures forall l :: l in jobs ==> l == pp || l == cur
  {
    forall l | l in jobs ensures l == pp || l == cur {
      LeaderInTable(t, jobs, lead, l);
      LeaderById(t, jobs, lead, l);
      assert !Candidate(t, l, cur, pp);
    }
  }

  // -------- flushing --------

  /** What `pflush` does to one process. */
  function Flushed(p: Process): Process
  {
    p.(pid := 0, index := 0, flags := p.flags - {NeedNote})
  }

  lemma {:induction false} FlushedEach(t: Table, r: seq<Ptr>)
    ensures var u := Swept(t, r, Flushed);
            u.Keys == t.Keys && forall p :: p in t && p in u ==> if p in r then Dropped(t[p], u[p]) else u[p] == t[p]
  {
  }

  /** A flushed process has neither id nor index, and no note to give; the rest of it stays. */
  ghost predicate Dropped(x: Process, y: Process)
  {
    && y.pid == 0 && y.index == 0 && y == x.(pid := 0, index := 0, flags := y.flags)
    && forall fl :: fl in y.flags <==> fl in x.flags && fl != NeedNote
  }

  lemma {:induction false} FlushedLinks()
    ensures forall x :: Flushed(x).next == x.next && Flushed(x).friends == x.friends
  {
  }

  /** The live processes that remain when job `l` is flushed. */
  ghost function LeadWithout(lead: map<Ptr, Ptr>, l: Ptr): map<Ptr, Ptr>
  {
    map p | p in lead && lead[p] != l :: lead[p]
  }

  lemma {:induction false} FlushRings(t: Table, jobs: map<Ptr, seq<Ptr>>, lead: map<Ptr, Ptr>, l: Ptr)
    requires Rings(t, jobs) && Led(t, jobs, lead) && l in jobs
    ensures Rings(Swept(t, jobs[l], Flushed), jobs - {l})
  {
    var u := Swept(t, jobs[l], Flushed);
    forall k | k in jobs - {l} ensures FriendRing(u, jobs[k]) && jobs[k][0] == k {
      FriendFrame(t, u, jobs[k]);
    }
  }

  lemma {:induction false} FlushLed(t: Table, jobs: map<Ptr, seq<Ptr>>, lead: map<Ptr, Ptr>, l: Ptr)
    requires Rings(t, jobs) && Led(t, jobs, lead) && l in jobs
    ensures Led(Swept(t, jobs[l], Flushed), jobs - {l}, LeadWithout(lead, l))
  {
    var u, jobs', lead' := Swept(t, jobs[l], Flushed), jobs - {l}, LeadWithout(lead, l);
    forall p | p in t ensures u[p] == if p in lead && lead[p] == l then Flushed(t[p]) else t[p] {
      assert p in jobs[l] <==> p in lead && lead[p] == l;
    }
    LedFlushed(t, u, jobs, lead, l);
  }

  lemma {:induction false} LedFlushed(t: Table, u: Table, jobs: map<Ptr, seq<Ptr>>, lead: map<Ptr, Ptr>, l: Ptr)
    requires Led(t, jobs, lead) && l in jobs && u.Keys == t.Keys
    requires forall p :: p in t ==> u[p] == if p in lead && lead[p] == l then Flushed(t[p]) else t[p]
    ensures Led(u, jobs - {l}, LeadWithout(lead, l))
  {
    SharedWithout(jobs, lead, l);
    forall p | p in lead ensures lead[p] in lead && lead[lead[p]] == lead[p] {
    }
    LabelledFlushed(t, u, lead, l);
  }

  lemma {:induction false} SharedWithout(jobs: map<Ptr, seq<Ptr>>, lead: map<Ptr, Ptr>, l: Ptr)
    requires Shared(jobs, lead)
    ensures Shared(jobs - {l}, LeadWithout(lead, l))
  {
  }

  lemma {:induction false} LabelledFlushed(t: Table, u: Table, lead: map<Ptr, Ptr>, l: Ptr)
    requires Labelled(t, lead) && u.Keys == t.Keys
    requires forall p :: p in lead ==> lead[p] in lead && lead[lead[p]] == lead[p]
    requires forall p :: p in t ==> u[p] == if p in lead && lead[p] == l then Flushed(t[p]) else t[p]
    ensures Labelled(u, LeadWithout(lead, l))
  {
  }

  /** A change to fields other than the links leaves the list in order. */
  lemma {:induction false} SweptKeepsLinks(t: Table, r: seq<Ptr>, f: Process -> Process, first: Ptr, list: seq<Ptr>)
    requires Listed(t, first, list) && OnList(t, list) && forall x :: f(x).next == x.next
    ensures Listed(Swept(t, r, f), first, list) && OnList(Swept(t, r, f), list)
  {
    ListedFrame(t, Swept(t, r, f), first, list);
  }

  lemma {:induction false} FlushHolding(t: Table, list: seq<Ptr>, jobs: map<Ptr, seq<Ptr>>, lead: map<Ptr, Ptr>, l: Ptr, dirs: Memory, head: Ptr)
    requires Holding(t, list, lead, dirs, head) && l in jobs
    ensures Holding(Swept(t, jobs[l], Flushed), list, LeadWithout(lead, l), dirs, head)
  {
    var u := Swept(t, jobs[l], Flushed);
    forall d | d in dirs && d != head ensures Refs(u, list, d) == Refs(t, list, d) {
      RefsFrame(t, u, list, d);
    }
  }

  lemma {:induction false} FlushStates(t: Table, r: seq<Ptr>)
    requires States(t)
    ensures States(Swept(t, r, Flushed))
  {
  }

  lemma {:induction false} FlushNamed(t: Table, r: seq<Ptr>)
    requires Named(t)
    ensures Named(Swept(t, r, Flushed))
  {
  }

  /** Leaders of other jobs are not touched by a flush. */
  lemma {:induction false} FlushOthers(t: Table, jobs: map<Ptr, seq<Ptr>>, lead: map<Ptr, Ptr>, l: Ptr, k: Ptr)
    requires Rings(t, jobs) && Led(t, jobs, lead) && l in jobs && k in jobs && k != l
    ensures k in t && k !in jobs[l] && Swept(t, jobs[l], Flushed)[k] == t[k]
  {
    assert jobs[k][0] == k && k in jobs[k];
  }

  /** The job whose index is still the largest after a flush. */
  lemma {:induction false} TopJob(t: Table, jobs: map<Ptr, seq<Ptr>>, lead: map<Ptr, Ptr>, l: Ptr, max: nat, m: nat)
    requires Rings(t, jobs) && Led(t, jobs, lead) && l in jobs && Indexed(t, jobs, max) && m > 0
    requires TopIndex(Swept(t, jobs[l], Flushed), m)
    ensures exists k :: k in jobs && k != l && k in t && t[k].index == m
  {
    var u := Swept(t, jobs[l], Flushed);
    var p :| p in u && u[p].index == m;
    assert p !in jobs[l] && u[p] == t[p];
    assert t[p].pid != 0 && p in lead && lead[p] in jobs;
    assert t[lead[p]].index == m;
  }

  /** Indices in a table `u` where some jobs of `t` are gone and all others keep theirs. */
  lemma {:induction false} FewerIndices(t: Table, u: Table, jobs: map<Ptr, seq<Ptr>>, jobs': map<Ptr, seq<Ptr>>, max: nat, m: nat)
    requires Indexed(t, jobs, max)
    requires forall k :: k in jobs' ==> k in jobs && k in t && k in u && u[k].index == t[k].index
    requires forall p :: p in u ==> u[p].index <= m && (u[p].pid == 0 ==> u[p].index == 0)
    requires m == 0 || exists k :: k in jobs' && k in u && u[k].index == m
    ensures Indexed(u, jobs', m)
  {
  }

  lemma {:induction false} FlushIndices(t: Table, jobs: map<Ptr, seq<Ptr>>, lead: map<Ptr, Ptr>, l: Ptr, max: nat, m: nat)
    requires Rings(t, jobs) && Led(t, jobs, lead) && l in jobs && l in t && Indexed(t, jobs, max)
    requires if t[l].index == max then TopIndex(Swept(t, jobs[l], Flushed), m) else m == max
    ensures Indexed(Swept(t, jobs[l], Flushed), jobs - {l}, m)
  {
    var u := Swept(t, jobs[l], Flushed);
    forall k | k in jobs - {l} ensures k in t && k in u && u[k].index == t[k].index {
      FlushOthers(t, jobs, lead, l, k);
    }
    forall p | p in u ensures u[p].index <= m && (u[p].pid == 0 ==> u[p].index == 0) {
      assert u[p] == if p in jobs[l] then Flushed(t[p]) else t[p];
    }
    if m > 0 {
      if t[l].index == max {
        TopJob(t, jobs, lead, l, max, m);
      }
      var k :| k in jobs && k != l && k in t && t[k].index == m;
      assert k in jobs - {l} && u[k].index == m;
    }
    FewerIndices(t, u, jobs, jobs - {l}, max, m);
  }

  /** `m` is the largest index in the table, 0 if there is none. */
  ghost predicate TopIndex(t: Table, m: nat)
  {
    (forall p :: p in t ==> t[p].index <= m) && (m == 0 || exists p :: p in t && t[p].index == m)
  }

  /** The scan by which `pflush` finds the largest index still in use. */
  method MaxIndex(t: Table, first: Ptr, ghost list: seq<Ptr>) returns (idx: nat)
    requires Listed(t, first, list) && OnList(t, list)
    ensures TopIndex(t, idx)
  {
    ListedFacts(t, first, list);
    idx := 0;
    var np := first;
    ghost var i := 0;
    while np != NULL
      invariant 0 <= i <= |list| && Listed(t, np, list[i..])
      invariant forall p :: p in list[..i] && p in t ==> t[p].index <= idx
      invariant idx == 0 || exists p :: p in t && t[p].index == idx
      decreases |list| - i
    {
      assert np == list[i] && list[i..][1..] == list[i + 1..] && list[..i + 1] == list[..i] + [np];
      if t[np].index > idx {
        idx := t[np].index;
      }
      np := t[np].next;
      i := i + 1;
    }
    assert list[..i] == list;
  }

  // -------- starting a process --------

  /** The last process of a ring: the one before the leader. */
  method Tail(t: Table, l: Ptr, ghost r: seq<Ptr>) returns (fp: Ptr)
    requires FriendRing(t, r) && r[0] == l
    ensures fp == r[|r| - 1] && fp in t
  {
    FriendRingEach(t, r);
    fp := l;
    ghost var i := 0;
    while t[fp].friends != l
      invariant 0 <= i < |r| && fp == r[i]
      decreases |r| - i
    {
      fp := t[fp].friends;
      i := i + 1;
    }
  }

  /** The table with a process `x` at `p` added to the front of the list and, at `tail`, to a ring. */
  ghost function Joined(t: Table, p: Ptr, x: Process, tail: Ptr): Table
    requires tail in t && p !in t
  {
    var u := t[p := x];
    u[tail := u[tail].(friends := p)]
  }

  lemma {:induction false} ListedAdd(t: Table, u: Table, first: Ptr, list: seq<Ptr>, p: Ptr)
    requires Listed(t, first, list) && OnList(t, list) && p != NULL && p !in t && u.Keys == t.Keys + {p}
    requires u[p].next == first && forall q :: q in t ==> u[q].next == t[q].next
    ensures Listed(u, p, [p] + list) && OnList(u, [p] + list)
  {
    ListedFrame(t, u, first, list);
    assert ([p] + list)[1..] == list;
  }

  /** Rings have no process in common. */
  lemma {:induction false} RingsApart(t: Table, jobs: map<Ptr, seq<Ptr>>, lead: map<Ptr, Ptr>, l: Ptr, k: Ptr)
    requires Led(t, jobs, lead) && l in jobs && k in jobs && k != l
    ensures forall q :: q in jobs[k] ==> q in t && q !in jobs[l]
  {
    forall q | q in jobs[k] ensures q in t && q !in jobs[l] {
      assert q in lead && lead[q] == k;
    }
  }

  lemma {:induction false} JoinRings(t: Table, jobs: map<Ptr, seq<Ptr>>, lead: map<Ptr, Ptr>, l: Ptr, p: Ptr, x: Process)
    requires Rings(t, jobs) && Led(t, jobs, lead) && l in jobs && p !in t && x.friends == l
    ensures jobs[l] != [] && jobs[l][|jobs[l]| - 1] in t
    ensures Rings(Joined(t, p, x, jobs[l][|jobs[l]| - 1]), jobs[l := jobs[l] + [p]])
  {
    hide Led, FriendChain;
    var tail := jobs[l][|jobs[l]| - 1];
    assert FriendRing(t, jobs[l]);
    var u, jobs' := Joined(t, p, x, tail), jobs[l := jobs[l] + [p]];
    forall k | k in jobs' ensures FriendRing(u, jobs'[k]) && jobs'[k][0] == k {
      assert FriendRing(t, jobs[k]);
      if k == l {
        RingMembersIn(t, jobs[l]);
        FriendAppend(t, u, jobs[l], p);
      } else {
        RingsApart(t, jobs, lead, l, k);
        assert tail !in jobs[k];
        FriendFrame(t, u, jobs[k]);
      }
    }
  }

  lemma {:induction false} RingMembersIn(t: Table, r: seq<Ptr>)
    requires FriendRing(t, r)
    ensures forall q :: q in r ==> q in t
  {
    FriendRingEach(t, r);
  }

  lemma {:induction false} JoinLed(t: Table, jobs: map<Ptr, seq<Ptr>>, lead: map<Ptr, Ptr>, l: Ptr, p: Ptr, x: Process, tail: Ptr)
    requires Led(t, jobs, lead) && l in jobs && l in t && p !in t && tail in t
    requires x.pid != 0 && x.jobid == t[l].pid && x.index == t[l].index
    ensures Led(Joined(t, p, x, tail), jobs[l := jobs[l] + [p]], lead[p := l])
  {
    hide Shared, Joined, Labelled;
    JobsInTable(t, jobs, lead, p);
    SharedWith(jobs, lead, l, p);
    JoinedLabels(t, lead, l, p, x, tail);
  }

  lemma {:induction false} JoinedLabels(t: Table, lead: map<Ptr, Ptr>, l: Ptr, p: Ptr, x: Process, tail: Ptr)
    requires Labelled(t, lead) && l in t && p !in t && p !in lead && tail in t
    requires x.pid != 0 && x.jobid == t[l].pid && x.index == t[l].index
    ensures Labelled(Joined(t, p, x, tail), lead[p := l])
  {
    var u := Joined(t, p, x, tail);
    forall q | q in t ensures q in u && u[q] == t[q].(friends := u[q].friends) {
    }
  }

  lemma {:induction false} SharedWith(jobs: map<Ptr, seq<Ptr>>, lead: map<Ptr, Ptr>, l: Ptr, p: Ptr)
    requires Shared(jobs, lead) && l in jobs && p !in lead && p !in jobs
    ensures Shared(jobs[l := jobs[l] + [p]], lead[p := l])
  {
  }

  lemma {:induction false} JoinNamed(t: Table, p: Ptr, x: Process, tail: Ptr)
    requires Named(t) && p !in t && tail in t && forall q :: q in t ==> t[q].pid != x.pid
    ensures Named(Joined(t, p, x, tail))
  {
  }

  lemma {:induction false} JoinIndexed(t: Table, jobs: map<Ptr, seq<Ptr>>, max: nat, l: Ptr, p: Ptr, x: Process, tail: Ptr)
    requires Indexed(t, jobs, max) && l in jobs && l in t && p !in t && tail in t && x.index == t[l].index && x.pid != 0
    ensures Indexed(Joined(t, p, x, tail), jobs[l := jobs[l] + [p]], max)
  {
    var jobs' := jobs[l := jobs[l] + [p]];
    if max != 0 {
      var k :| k in jobs && t[k].index == max;
      assert k in jobs';
    }
  }

  lemma {:induction false} JoinStates(t: Table, p: Ptr, x: Process, tail: Ptr)
    requires States(t) && p !in t && tail in t && OneState(x.flags)
    ensures States(Joined(t, p, x, tail))
  {
  }

  lemma {:induction false} JoinHolding(t: Table, list: seq<Ptr>, lead: map<Ptr, Ptr>, dirs: Memory, head: Ptr, l: Ptr, p: Ptr, x: Process, tail: Ptr)
    requires Holding(t, list, lead, dirs, head) && p !in t && tail in t && x.cwd == NULL && NULL !in dirs && l != p
    ensures Holding(Joined(t, p, x, tail), [p] + list, lead[p := l], dirs, head)
  {
    var u := Joined(t, p, x, tail);
    forall d | d in dirs && d != head ensures Refs(u, [p] + list, d) == Refs(t, list, d) {
      assert ([p] + list)[1..] == list;
      RefsFrame(t, u, list, d);
    }
  }

  /** `i` is not an index in the table. */
  ghost predicate Unused(t: Table, i: nat)
  {
    forall p :: p in t ==> t[p].index != i
  }

  /** One more than the largest index while that is small, else the least that is free. */
  ghost predicate NextIndex(t: Table, max: nat, idx: nat)
  {
    if max < BIGINDEX then idx == max + 1 else forall i :: 0 < i < idx ==> !Unused(t, i)
  }

  /** The index of a new job: one more than the largest while that is small, else the least that is free. */
  method NewIndex(t: Table, first: Ptr, max: nat, ghost list: seq<Ptr>, ghost jobs: map<Ptr, seq<Ptr>>) returns (idx: nat, max': nat)
    requires Listed(t, first, list) && OnList(t, list) && Indexed(t, jobs, max)
    ensures idx > 0 && NextIndex(t, max, idx) && Unused(t, idx) && max' == if idx > max then idx else max
  {
    if max < BIGINDEX {
      return max + 1, max + 1;
    }
    idx := 1;
    while true
      invariant 0 < idx <= max + 1 && forall i :: 0 < i < idx ==> !Unused(t, i)
      decreases max + 1 - idx
    {
      var taken := InUse(t, first, idx, list);
      if !taken {
        break;
      }
      idx := idx + 1;
    }
    max' := if idx > max then idx else max;
  }

  /** The inner scan: is the index taken? */
  method InUse(t: Table, first: Ptr, i: nat, ghost list: seq<Ptr>) returns (taken: bool)
    requires Listed(t, first, list) && OnList(t, list)
    ensures taken <==> !Unused(t, i)
  {
    ListedFacts(t, first, list);
    var np := first;
    ghost var k := 0;
    while np != NULL
      invariant 0 <= k <= |list| && Listed(t, np, list[k..])
      invariant forall p :: p in list[..k] && p in t ==> t[p].index != i
      decreases |list| - k
    {
      assert np == list[k] && list[k..][1..] == list[k + 1..] && list[..k + 1] == list[..k] + [np];
      if t[np].index == i {
        return true;
      }
      np := t[np].next;
      k := k + 1;
    }
    assert list[..k] == list;
    return false;
  }

  lemma {:induction false} AloneGroups(t: Table, jobs: map<Ptr, seq<Ptr>>, lead: map<Ptr, Ptr>, p: Ptr, x: Process)
    requires Rings(t, jobs) && Led(t, jobs, lead) && p !in t && x.friends == p && x.pid == x.jobid != 0
    ensures Rings(t[p := x], jobs[p := [p]]) && Led(t[p := x], jobs[p := [p]], lead[p := p])
  {
    var u, jobs' := t[p := x], jobs[p := [p]];
    forall k | k in jobs' ensures FriendRing(u, jobs'[k]) && jobs'[k][0] == k {
      if k != p {
        FriendFrame(t, u, jobs[k]);
      }
    }
    AloneLed(t, jobs, lead, p, x);
  }

  lemma {:induction false} AloneLed(t: Table, jobs: map<Ptr, seq<Ptr>>, lead: map<Ptr, Ptr>, p: Ptr, x: Process)
    requires Led(t, jobs, lead) && p !in t && x.pid == x.jobid != 0
    ensures Led(t[p := x], jobs[p := [p]], lead[p := p])
  {
  }

  lemma {:induction false} AloneIndexed(t: Table, jobs: map<Ptr, seq<Ptr>>, max: nat, p: Ptr, x: Process)
    requires Indexed(t, jobs, max) && p !in t && x.pid != 0 && x.index > 0 && Unused(t, x.index)
    ensures Indexed(t[p := x], jobs[p := [p]], if x.index > max then x.index else max)
  {
    var jobs' := jobs[p := [p]];
    if max != 0 {
      var k :| k in jobs && t[k].index == max;
      assert k in jobs';
    }
    assert p in jobs';
  }

  lemma {:induction false} AloneHolding(t: Table, list: seq<Ptr>, lead: map<Ptr, Ptr>, dirs: Memory, head: Ptr, p: Ptr, x: Process)
    requires Holding(t, list, lead, dirs, head) && p !in t
    requires x.cwd in dirs && x.cwd != head && NULL !in dirs
    ensures Holding(t[p := x], [p] + list, lead[p := p], DirStack.Bumped(dirs, x.cwd), head)
  {
    var u := t[p := x];
    forall d | d in dirs && d != head
      ensures Refs(u, [p] + list, d) == Refs(t, list, d) + if d == x.cwd then 1 else 0
    {
      assert ([p] + list)[1..] == list;
      RefsFrame(t, u, list, d);
    }
  }

  /** A process added to a job keeps the table in order. */
  lemma {:induction false} JoinAll(t: Table, first: Ptr, list: seq<Ptr>, jobs: map<Ptr, seq<Ptr>>, lead: map<Ptr, Ptr>, max: nat,
                dirs: Memory, head: Ptr, l: Ptr, p: Ptr, x: Process, tail: Ptr)
    requires Listed(t, first, list) && OnList(t, list) && Rings(t, jobs) && Led(t, jobs, lead)
    requires Named(t) && Indexed(t, jobs, max) && States(t) && Holding(t, list, lead, dirs, head) && NULL !in dirs
    requires l in jobs && jobs[l] != [] && tail == jobs[l][|jobs[l]| - 1] && tail in t && l in t && p !in t && p != NULL
    requires x.next == first && x.friends == l && x.cwd == NULL && OneState(x.flags)
    requires x.pid != 0 && x.jobid == t[l].pid && x.index == t[l].index && forall q :: q in t ==> t[q].pid != x.pid
    ensures var u, list', jobs', lead' := Joined(t, p, x, tail), [p] + list, jobs[l := jobs[l] + [p]], lead[p := l];
            && Listed(u, p, list') && OnList(u, list') && Rings(u, jobs') && Led(u, jobs', lead')
            && Named(u) && Indexed(u, jobs', max) && States(u) && Holding(u, list', lead', dirs, head)
  {
    hide *;
    JoinRings(t, jobs, lead, l, p, x);
    JoinLed(t, jobs, lead, l, p, x, tail);
    JoinNamed(t, p, x, tail);
    JoinIndexed(t, jobs, max, l, p, x, tail);
    JoinStates(t, p, x, tail);
    JoinHolding(t, list, lead, dirs, head, l, p, x, tail);
    JoinedFacts(t, p, x, tail);
    ListedAdd(t, Joined(t, p, x, tail), first, list, p);
  }

  /** A new job keeps the table in order. */
  lemma {:induction false} AloneAll(t: Table, first: Ptr, list: seq<Ptr>, jobs: map<Ptr, seq<Ptr>>, lead: map<Ptr, Ptr>, max: nat,
                 dirs: Memory, head: Ptr, p: Ptr, x: Process)
    requires Listed(t, first, list) && OnList(t, list) && Rings(t, jobs) && Led(t, jobs, lead)
    requires Named(t) && Indexed(t, jobs, max) && States(t) && Holding(t, list, lead, dirs, head) && NULL !in dirs
    requires p !in t && p != NULL && x.next == first && x.friends == p && OneState(x.flags)
    requires x.cwd in dirs && x.cwd != head && x.index > 0 && Unused(t, x.index)
    requires x.pid == x.jobid != 0 && forall q :: q in t ==> t[q].pid != x.pid
    ensures p !in jobs
    ensures var u, list', jobs', lead' := t[p := x], [p] + list, jobs[p := [p]], lead[p := p];
            && Listed(u, p, list') && OnList(u, list') && Rings(u, jobs') && Led(u, jobs', lead')
            && Named(u) && Indexed(u, jobs', if x.index > max then x.index else max) && States(u)
            && Holding(u, list', lead', DirStack.Bumped(dirs, x.cwd), head)
  {
    hide *;
    AloneGroups(t, jobs, lead, p, x);
    AloneNamed(t, p, x);
    AloneIndexed(t, jobs, max, p, x);
    AloneStates(t, p, x);
    AloneHolding(t, list, lead, dirs, head, p, x);
    ListedAdd(t, t[p := x], first, list, p);
    JobsInTable(t, jobs, lead, p);
  }

  /** The table with a new job led by `p`, and the marks for current and previous job. */
  method StartJob(t: Table, first: Ptr, max: nat, cur: Ptr, prev: Ptr, cwd: Ptr, p: Ptr, pid: nat, flags: Flags,
                  ghost list: seq<Ptr>, ghost jobs: map<Ptr, seq<Ptr>>, ghost lead: map<Ptr, Ptr>, ghost dirs: Memory, ghost head: Ptr)
    returns (u: Table, max': nat, cur': Ptr, prev': Ptr)
    requires Listed(t, first, list) && OnList(t, list) && Rings(t, jobs) && Led(t, jobs, lead)
    requires Named(t) && Indexed(t, jobs, max) && States(t) && Holding(t, list, lead, dirs, head) && NULL !in dirs
    requires Picked(jobs, cur, prev) && p !in t && p != NULL && OneState(flags) && cwd in dirs && cwd != head
    requires pid > 0 && forall q :: q in t ==> t[q].pid != pid
    ensures u.Keys == t.Keys + {p} && u[p].pid == pid && u[p].flags == flags && u[p].cwd == cwd
    ensures Unused(t, u[p].index) && NextIndex(t, max, u[p].index)
    ensures Listed(u, p, [p] + list) && OnList(u, [p] + list) && Rings(u, jobs[p := [p]]) && Led(u, jobs[p := [p]], lead[p := p])
    ensures Named(u) && Indexed(u, jobs[p := [p]], max') && States(u)
    ensures Holding(u, [p] + list, lead[p := p], DirStack.Bumped(dirs, cwd), head)
    ensures cur' == (if cur == NULL then p else cur) && prev' == if cur != NULL && prev == NULL then p else prev
    ensures Picked(jobs[p := [p]], cur', prev')
  {
    hide *;
    var idx;
    idx, max' := NewIndex(t, first, max, list, jobs);
    var x := Process(first, p, cwd, flags, idx, pid, pid, 0, 0);
    AloneAll(t, first, list, jobs, lead, max, dirs, head, p, x);
    u := t[p := x];
    cur', prev' := PickNew(cur, prev, p, jobs);
  }

  lemma {:induction false} AloneNamed(t: Table, p: Ptr, x: Process)
    requires Named(t) && p !in t && forall q :: q in t ==> t[q].pid != x.pid
    ensures Named(t[p := x])
  {
  }

  lemma {:induction false} AloneStates(t: Table, p: Ptr, x: Process)
    requires States(t) && p !in t && OneState(x.flags)
    ensures States(t[p := x])
  {
  }

  lemma {:induction false} JoinedFacts(t: Table, p: Ptr, x: Process, tail: Ptr)
    requires tail in t && p !in t
    ensures Joined(t, p, x, tail).Keys == t.Keys + {p} && Joined(t, p, x, tail)[p] == x
    ensures forall q :: q in t ==> Joined(t, p, x, tail)[q].next == t[q].next
    ensures Joined(t, p, x, tail) == t[p := x][tail := t[tail].(friends := p)]
  {
  }

  lemma {:induction false} JoinPicked(jobs: map<Ptr, seq<Ptr>>, l: Ptr, p: Ptr, cur: Ptr, prev: Ptr)
    requires Picked(jobs, cur, prev) && l in jobs
    ensures Picked(jobs[l := jobs[l] + [p]], cur, prev)
  {
  }

  /** A new job becomes current if there is no current job, else previous if there is no previous one. */
  method PickNew(cur: Ptr, prev: Ptr, p: Ptr, ghost jobs: map<Ptr, seq<Ptr>>) returns (cur': Ptr, prev': Ptr)
    requires Picked(jobs, cur, prev) && p != NULL && p !in jobs
    ensures cur' == (if cur == NULL then p else cur) && prev' == if cur != NULL && prev == NULL then p else prev
    ensures Picked(jobs[p := [p]], cur', prev')
  {
    cur', prev' := cur, prev;
    if cur == NULL {
      cur' := p;
    } else if prev == NULL {
      prev' := p;
    }
  }

  /** The flags of a process just started. */
  function StartFlags(amp: bool, timed: bool, pipe: bool, err: bool): Flags
  {
    {Running} + (if amp then {} else {Foregnd}) + (if timed then {PTime} else {})
    + (if pipe then {Pou} + (if err then {Err} else {}) else {})
  }

  lemma {:induction false} StartState(amp: bool, timed: bool, pipe: bool, err: bool)
    ensures OneState(StartFlags(amp, timed, pipe, err))
    ensures forall fl :: fl in StartFlags(amp, timed, pipe, err) <==>
              fl == Running || (fl == Foregnd && !amp) || (fl == PTime && timed) || (fl == Pou && pipe) || (fl == Err && pipe && err)
  {
    assert StartFlags(amp, timed, pipe, err) * ALLSTATES == {Running};
  }

  // -------- changes that concern flags only --------

  /** What `wait3` says of a child. */
  datatype Status = Stop(sig: nat) | Kill(sig: nat, core: bool) | Exit(code: nat)

  const SIGINT: nat := 2

  ghost predicate SameShape(t: Table, u: Table)
  {
    && u.Keys == t.Keys
    && forall p :: p in t ==> u[p] == t[p].(flags := u[p].flags, cpu := u[p].cpu, reason := u[p].reason)
  }

  /** A change of flags keeps everything but the states in order. */
  lemma {:induction false} ShapeAll(t: Table, u: Table, first: Ptr, list: seq<Ptr>, jobs: map<Ptr, seq<Ptr>>, lead: map<Ptr, Ptr>, max: nat,
                 dirs: Memory, head: Ptr)
    requires SameShape(t, u)
    requires Listed(t, first, list) && OnList(t, list) && Rings(t, jobs) && Led(t, jobs, lead)
    requires Named(t) && Indexed(t, jobs, max) && Holding(t, list, lead, dirs, head)
    ensures Listed(u, first, list) && OnList(u, list) && Rings(u, jobs) && Led(u, jobs, lead)
    ensures Named(u) && Indexed(u, jobs, max) && Holding(u, list, lead, dirs, head)
  {
    ListedFrame(t, u, first, list);
    ShapeRings(t, u, jobs);
    ShapeLed(t, u, jobs, lead);
    ShapeIndexed(t, u, jobs, max);
    ShapeHolding(t, u, list, lead, dirs, head);
    hide *;
  }

  lemma {:induction false} ShapeRings(t: Table, u: Table, jobs: map<Ptr, seq<Ptr>>)
    requires SameShape(t, u) && Rings(t, jobs)
    ensures Rings(u, jobs)
  {
    forall l | l in jobs ensures FriendRing(u, jobs[l]) && jobs[l][0] == l {
      FriendFrame(t, u, jobs[l]);
    }
  }

  lemma {:induction false} ShapeLed(t: Table, u: Table, jobs: map<Ptr, seq<Ptr>>, lead: map<Ptr, Ptr>)
    requires SameShape(t, u) && Led(t, jobs, lead)
    ensures Led(u, jobs, lead)
  {
  }

  lemma {:induction false} ShapeIndexed(t: Table, u: Table, jobs: map<Ptr, seq<Ptr>>, max: nat)
    requires SameShape(t, u) && Indexed(t, jobs, max)
    ensures Indexed(u, jobs, max)
  {
  }

  lemma {:induction false} ShapeHolding(t: Table, u: Table, list: seq<Ptr>, lead: map<Ptr, Ptr>, dirs: Memory, head: Ptr)
    requires SameShape(t, u) && Holding(t, list, lead, dirs, head)
    ensures Holding(u, list, lead, dirs, head)
  {
    forall d | d in dirs && d != head ensures Refs(u, list, d) == Refs(t, list, d) {
      RefsFrame(t, u, list, d);
    }
  }

  /** The same state, reason and time, with and without core and foreground alike; what was reported stays so. */
  ghost predicate SameFate(x: Process, y: Process)
  {
    && y.flags * ALLSTATES == x.flags * ALLSTATES && y.reason == x.reason && y.cpu == x.cpu
    && (Dumped in y.flags <==> Dumped in x.flags) && (Foregnd in y.flags <==> Foregnd in x.flags)
    && (Reported in x.flags ==> Reported in y.flags)
  }

  /** A function on processes that touches nothing but flags, and none that tells the fate of a process. */
  ghost predicate KeepsState(f: Process -> Process)
  {
    forall x :: f(x) == x.(flags := f(x).flags) && SameFate(x, f(x))
  }

  lemma {:induction false} SweptShape(t: Table, r: seq<Ptr>, f: Process -> Process)
    requires KeepsState(f)
    ensures SameShape(t, Swept(t, r, f)) && (States(t) ==> States(Swept(t, r, f)))
    ensures forall x :: f(x).friends == x.friends
  {
    var u := Swept(t, r, f);
    forall p | p in t
      ensures u[p] == t[p].(flags := u[p].flags) && u[p].flags * ALLSTATES == t[p].flags * ALLSTATES
    {
      assert f(t[p]) == t[p].(flags := f(t[p]).flags) && SameFate(t[p], f(t[p]));
    }
    SameStates(t, u);
    forall x ensures f(x).friends == x.friends {
      assert f(x) == x.(flags := f(x).flags);
    }
  }

  lemma {:induction false} SameStates(t: Table, u: Table)
    requires u.Keys == t.Keys
    requires forall p :: p in t ==> u[p].pid == t[p].pid && u[p].flags * ALLSTATES == t[p].flags * ALLSTATES
    ensures States(t) ==> States(u)
  {
  }

  lemma {:induction false} ShapeTransitive(t: Table, u: Table, w: Table)
    requires SameShape(t, u) && SameShape(u, w)
    ensures SameShape(t, w)
  {
  }

  // -------- a report on a child --------

  function StateOf(st: Status): Flag
  {
    match st
    case Stop(_) => Stopped
    case Kill(sig, _) => if sig == SIGINT then Interrupted else Signaled
    case Exit(code) => if code == 0 then NExited else AExited
  }

  /** The child's own entry after the report: one state flag instead of another, and the job not yet reported. */
  function Told(x: Process, st: Status, cpu: nat): Process
  {
    var flags := x.flags - {Running, Stopped, Reported} + {StateOf(st)};
    match st
    case Stop(sig) => x.(flags := flags, reason := sig)
    case Kill(sig, core) => x.(flags := flags + (if core then {Dumped} else {}), reason := sig, cpu := cpu)
    case Exit(code) => x.(flags := flags, reason := code, cpu := cpu)
  }

  /** What there is to see of a process that was `x` once a report on it is recorded. */
  ghost predicate Shows(x: Process, y: Process, st: Status, cpu: nat)
  {
    match st
    case Stop(sig) =>
      y.flags * ALLSTATES == {Stopped} && y.reason == sig && y.cpu == x.cpu && (Dumped in y.flags <==> Dumped in x.flags)
    case Kill(sig, core) =>
      && y.flags * ALLSTATES == (if sig == 2 then {Interrupted} else {Signaled}) && y.reason == sig && y.cpu == cpu
      && (Dumped in y.flags <==> core || Dumped in x.flags)
    case Exit(code) =>
      && y.flags * ALLSTATES == (if code == 0 then {NExited} else {AExited}) && y.reason == code && y.cpu == cpu
      && (Dumped in y.flags <==> Dumped in x.flags)
  }

  lemma {:induction false} ToldState(x: Process, st: Status, cpu: nat)
    requires OneState(x.flags) && (Running in x.flags || Stopped in x.flags)
    ensures Shows(x, Told(x, st, cpu), st, cpu) && OneState(Told(x, st, cpu).flags)
  {
    OneStateIs(x.flags, if Running in x.flags then Running else Stopped);
    var f := Told(x, st, cpu).flags;
    forall fl | fl in f * ALLSTATES ensures fl == StateOf(st) {
      if fl in x.flags {
        assert fl in x.flags * ALLSTATES;
      }
    }
    assert StateOf(st) in f * ALLSTATES;
    assert f * ALLSTATES == {StateOf(st)};
  }

  lemma {:induction false} OneStateIs(f: Flags, s: Flag)
    requires OneState(f) && s in f && s in ALLSTATES
    ensures f * ALLSTATES == {s}
  {
    assert s in f * ALLSTATES;
  }

  /** Mark a finished process that used more than the time limit. */
  function Timed(x: Process, limit: int): Process
  {
    if x.flags * {PTime, Running, Stopped} == {} && limit >= 0 && x.cpu >= limit then x.(flags := x.flags + {Time}) else x
  }

  /** The child leaves the foreground; a lone timed process has its time printed with the job. */
  function Backed(x: Process, alone: bool): Process
  {
    var flags := x.flags - {Foregnd};
    x.(flags := if alone && PTime in flags then flags - {PTime} + {Time} else flags)
  }

  function ReportedIfStopped(x: Process): Process
  {
    if Stopped in x.flags then x.(flags := x.flags + {Reported}) else x
  }

  /** The process with that id, by a scan of the list. */
  method FindPid(t: Table, first: Ptr, pid: nat, ghost list: seq<Ptr>) returns (pp: Ptr)
    requires Listed(t, first, list) && OnList(t, list)
    ensures pp != NULL ==> pp in t && t[pp].pid == pid
    ensures pp == NULL ==> forall p :: p in t ==> t[p].pid != pid
  {
    ListedFacts(t, first, list);
    pp := first;
    ghost var i := 0;
    while pp != NULL && t[pp].pid != pid
      invariant 0 <= i <= |list| && Listed(t, pp, list[i..]) && (pp != NULL ==> pp in t)
      invariant forall p :: p in list[..i] && p in t ==> t[p].pid != pid
      decreases |list| - i
    {
      assert pp == list[i] && list[i..][1..] == list[i + 1..] && list[..i + 1] == list[..i] + [pp];
      pp := t[pp].next;
      i := i + 1;
    }
    assert pp == NULL ==> list[..i] == list;
  }

  /** No other process of the job runs, or has been reported stopped, so the report settles the job's state. */
  ghost predicate Settled(t: Table, r: seq<Ptr>, pp: Ptr)
  {
    forall q :: q in r && q in t && q != pp ==> Running !in t[q].flags && Reported !in t[q].flags
  }

  ghost predicate SomeStopped(t: Table, r: seq<Ptr>, pp: Ptr, st: Status)
  {
    st.Stop? || exists q :: q in r && q in t && q != pp && Stopped in t[q].flags
  }

  ghost predicate SomeWith(t: Table, r: seq<Ptr>, fl: Flag)
  {
    exists q :: q in r && q in t && fl in t[q].flags
  }

  /** The child and the rest of the job have the states the report implies. */
  ghost predicate StatesAfter(t: Table, u: Table, r: seq<Ptr>, pp: Ptr, st: Status, cpu: nat)
  {
    forall q :: q in t && q in u ==>
      if q == pp then Shows(t[q], u[q], st, cpu) && Foregnd !in u[q].flags
      else if q in r then SameFate(t[q], u[q])
      else u[q] == t[q]
  }

  /** States are kept in the ring `r`, and everything outside it. */
  ghost predicate StatesKept(t: Table, u: Table, r: seq<Ptr>)
  {
    u.Keys == t.Keys && forall q :: q in t && q in u ==>
      if q in r then SameFate(t[q], u[q]) else u[q] == t[q]
  }

  /** Every stopped process of the ring is marked as reported. */
  ghost predicate StopsReported(t: Table, r: seq<Ptr>)
  {
    forall q :: q in r && q in t && Stopped in t[q].flags ==> Reported in t[q].flags
  }

  lemma {:induction false} SweptReported(t: Table, r: seq<Ptr>)
    ensures StopsReported(Swept(t, r, ReportedIfStopped), r)
  {
  }

  lemma {:induction false} KeptReported(t: Table, u: Table, r: seq<Ptr>)
    requires StatesKept(t, u, r) && StopsReported(t, r)
    ensures StopsReported(u, r)
  {
    forall q | q in r && q in u && Stopped in u[q].flags ensures Reported in u[q].flags {
      assert SameFate(t[q], u[q]);
      assert Stopped in u[q].flags * ALLSTATES;
    }
  }

  lemma {:induction false} KeptTransitive(t: Table, u: Table, w: Table, r: seq<Ptr>)
    requires StatesKept(t, u, r) && StatesKept(u, w, r)
    ensures StatesKept(t, w, r)
  {
  }

  lemma {:induction false} KeptFacts(t: Table, u: Table, r: seq<Ptr>)
    requires StatesKept(t, u, r)
    ensures u.Keys == t.Keys
  {
  }

  lemma {:induction false} KeptSame(t: Table, r: seq<Ptr>)
    ensures StatesKept(t, t, r)
  {
  }

  lemma {:induction false} KeptOne(t: Table, u: Table, l: Ptr, r: seq<Ptr>)
    requires StatesKept(t, u, [l]) && l in r
    ensures StatesKept(t, u, r)
  {
  }

  lemma {:induction false} ShapeAt(t: Table, u: Table, p: Ptr)
    requires SameShape(t, u) && p in t
    ensures p in u && u[p].pid == t[p].pid
  {
  }

  lemma {:induction false} PickedBring(jobs: map<Ptr, seq<Ptr>>, l: Ptr, cur: Ptr, prev: Ptr)
    requires Picked(jobs, cur, prev) && l in jobs && l != NULL
    ensures Picked(jobs, l, if cur != NULL && cur != l then cur else prev)
  {
  }

  lemma {:induction false} KeptFlush(t: Table, r: seq<Ptr>)
    ensures StatesKept(t, Swept(t, r, Flushed), r)
  {
    forall q | q in t ensures SameFate(t[q], Flushed(t[q])) {
      assert Flushed(t[q]).flags * ALLSTATES == t[q].flags * ALLSTATES;
    }
  }

  lemma {:induction false} AfterKept(t: Table, u: Table, w: Table, r: seq<Ptr>, pp: Ptr, st: Status, cpu: nat)
    requires StatesAfter(t, u, r, pp, st, cpu) && StatesKept(u, w, r) && pp in r
    ensures StatesAfter(t, w, r, pp, st, cpu)
  {
  }

  lemma {:induction false} SameMembers(t: Table, u: Table, r: seq<Ptr>, s: seq<Ptr>, pp: Ptr, st: Status, cpu: nat)
    requires forall q :: q in r <==> q in s
    ensures Settled(t, r, pp) <==> Settled(t, s, pp)
    ensures SomeStopped(t, r, pp, st) <==> SomeStopped(t, s, pp, st)
    ensures SomeWith(t, r, Foregnd) <==> SomeWith(t, s, Foregnd)
    ensures SomeWith(t, r, Notify) <==> SomeWith(t, s, Notify)
    ensures StatesAfter(t, u, r, pp, st, cpu) <==> StatesAfter(t, u, s, pp, st, cpu)
  {
  }

  lemma {:induction false} SweptSame(t: Table, r: seq<Ptr>, s: seq<Ptr>, f: Process -> Process)
    requires KeepsState(f) && forall q :: q in r <==> q in s
    ensures Swept(t, r, f) == Swept(t, s, f) && StatesKept(t, Swept(t, s, f), s)
  {
    forall q | q in t ensures SameFate(t[q], f(t[q])) {
    }
  }

  lemma {:induction false} SweptOneShape(t: Table, p: Ptr, f: Process -> Process)
    requires p in t && KeepsState(f)
    ensures var u := t[p := f(t[p])]; SameShape(t, u) && (States(t) ==> States(u)) && StatesKept(t, u, [p])
  {
    var u := t[p := f(t[p])];
    assert f(t[p]) == t[p].(flags := f(t[p]).flags) && SameFate(t[p], f(t[p]));
    SameStates(t, u);
  }

  function Noted(x: Process): Process
  {
    x.(flags := x.flags + {NeedNote})
  }

  lemma {:induction false} UniquePid(t: Table, pp: Ptr, pid: nat)
    requires Named(t) && pp in t && t[pp].pid == pid != 0
    ensures forall p :: p in t && t[p].pid == pid ==> p == pp
  {
  }

  lemma {:induction false} PickedFewer(jobs: map<Ptr, seq<Ptr>>, l: Ptr, cur: Ptr, prev: Ptr)
    requires Picked(jobs - {l}, cur, prev) && Full(jobs, cur, prev) && l != NULL
    ensures Picked(jobs, cur, prev) && cur != l && prev != l
  {
  }

  function Resumed(x: Process, foregnd: bool): Process
  {
    if x.flags * {Running, Stopped} == {} then x
    else x.(flags := x.flags + {Running} - {Stopped} - {Foregnd} + (if foregnd then {Foregnd} else {}))
  }

  function ResumedFg(x: Process): Process { Resumed(x, true) }

  function ResumedBg(x: Process): Process { Resumed(x, false) }

  /** A process that can run runs, in the foreground or not as it was told, and is otherwise as before; one that has ended stays. */
  ghost predicate Going(x: Process, y: Process, foregnd: bool)
  {
    && y == x.(flags := y.flags)
    && if Running in x.flags || Stopped in x.flags then
         forall fl :: fl in y.flags <==>
           if fl == Running then true else if fl == Stopped then false else if fl == Foregnd then foregnd else fl in x.flags
       else y == x
  }

  lemma {:induction false} AllGoing(t: Table, r: seq<Ptr>, foregnd: bool)
    ensures var u := if foregnd then Swept(t, r, ResumedFg) else Swept(t, r, ResumedBg);
            && u.Keys == t.Keys
            && forall p :: p in t && p in u ==> if p in r then Going(t[p], u[p], foregnd) else u[p] == t[p]
  {
    var u := if foregnd then Swept(t, r, ResumedFg) else Swept(t, r, ResumedBg);
    forall p | p in t && p in u ensures if p in r then Going(t[p], u[p], foregnd) else u[p] == t[p] {
      OneGoing(t[p], foregnd);
    }
  }

  lemma {:induction false} OneGoing(x: Process, foregnd: bool)
    ensures Going(x, Resumed(x, foregnd), foregnd)
  {
    if Running in x.flags || Stopped in x.flags {
      assert (if Running in x.flags then Running else Stopped) in x.flags * {Running, Stopped};
    } else {
      assert x.flags * {Running, Stopped} == {};
    }
  }

  lemma {:induction false} ResumedState(x: Process, foregnd: bool)
    requires OneState(x.flags)
    ensures OneState(Resumed(x, foregnd).flags)
  {
    var f := Resumed(x, foregnd).flags;
    if x.flags * {Running, Stopped} != {} {
      OneStateIs(x.flags, if Running in x.flags then Running else Stopped);
      forall fl | fl in f * ALLSTATES ensures fl == Running {
        if fl in x.flags {
          assert fl in x.flags * ALLSTATES;
        }
      }
      assert Running in f * ALLSTATES;
      assert f * ALLSTATES == {Running};
    }
  }

  lemma {:induction false} ResumedShape(t: Table, r: seq<Ptr>, f: Process -> Process)
    requires f == ResumedFg || f == ResumedBg
    ensures SameShape(t, Swept(t, r, f)) && (States(t) ==> States(Swept(t, r, f)))
    ensures forall x :: f(x).friends == x.friends
  {
    var u := Swept(t, r, f);
    if States(t) {
      forall p | p in u && u[p].pid != 0 ensures OneState(u[p].flags) {
        ResumedState(t[p], f == ResumedFg);
      }
    }
  }

  /** A process changed in no more than flags, time and reason. */
  ghost predicate Alike(x: Process, y: Process)
  {
    y == x.(flags := y.flags, cpu := y.cpu, reason := y.reason)
  }

  lemma {:induction false} ShapeUpdate(t: Table, p: Ptr, y: Process)
    requires p in t && Alike(t[p], y)
    ensures SameShape(t, t[p := y])
  {
  }

  lemma {:induction false} StatesUpdate(t: Table, p: Ptr, y: Process)
    requires p in t && States(t) && (y.pid != 0 ==> OneState(y.flags))
    ensures States(t[p := y])
  {
  }

  /** The flags gathered while the report is recorded, in terms of those before it. */
  lemma {:induction false} SeenFlags(t: Table, r: seq<Ptr>, pp: Ptr, st: Status, cpu: nat, limit: int, fl: Flag)
    requires pp in t && pp in r && fl != Time && fl != Dumped
    ensures var t1 := t[pp := Told(t[pp], st, cpu)];
            (exists p :: p in r && p in t1 && fl in Timed(t1[p], limit).flags) <==>
            (exists p :: p in r && p in t && p != pp && fl in t[p].flags)
            || fl == StateOf(st) || (fl in t[pp].flags && fl !in {Running, Stopped, Reported})
  {
    var t1 := t[pp := Told(t[pp], st, cpu)];
    assert fl in Timed(t1[pp], limit).flags <==>
           fl == StateOf(st) || (fl in t[pp].flags && fl !in {Running, Stopped, Reported});
    forall p | p in r && p in t && p != pp ensures fl in Timed(t1[p], limit).flags <==> fl in t[p].flags {
      assert t1[p] == t[p];
    }
  }

  lemma {:induction false} RecordTold(t: Table, pp: Ptr, st: Status, cpu: nat, r: seq<Ptr>)
    requires FriendRing(t, r) && r[0] == pp && pp in t && States(t) && t[pp].pid != 0
    requires Running in t[pp].flags || Stopped in t[pp].flags
    ensures var t1 := t[pp := Told(t[pp], st, cpu)];
            FriendRing(t1, r) && States(t1) && SameShape(t, t1) && OneState(t1[pp].flags) && Shows(t[pp], t1[pp], st, cpu)
  {
    var t1 := t[pp := Told(t[pp], st, cpu)];
    ToldState(t[pp], st, cpu);
    ShapeUpdate(t, pp, t1[pp]);
    StatesUpdate(t, pp, t1[pp]);
    FriendFrame(t, t1, r);
  }

  lemma {:induction false} TimedKeeps(limit: int)
    ensures KeepsState(x => Timed(x, limit))
  {
    forall x: Process ensures Timed(x, limit) == x.(flags := Timed(x, limit).flags) && SameFate(x, Timed(x, limit)) {
      TimedState(x, limit);
    }
  }

  lemma {:induction false} SeenAll(t: Table, r: seq<Ptr>, pp: Ptr, st: Status, cpu: nat, limit: int, seen: Flags)
    requires pp in t && pp in r
    requires var t1 := t[pp := Told(t[pp], st, cpu)];
             forall fl :: fl in seen <==> exists p :: p in r && p in t1 && fl in Timed(t1[p], limit).flags
    ensures Running !in seen && Reported !in seen <==> Settled(t, r, pp)
    ensures Stopped in seen <==> SomeStopped(t, r, pp, st)
    ensures Foregnd in seen <==> SomeWith(t, r, Foregnd)
    ensures Notify in seen <==> SomeWith(t, r, Notify)
  {
    SeenFlags(t, r, pp, st, cpu, limit, Running);
    SeenFlags(t, r, pp, st, cpu, limit, Reported);
    SeenFlags(t, r, pp, st, cpu, limit, Stopped);
    SeenFlags(t, r, pp, st, cpu, limit, Foregnd);
    SeenFlags(t, r, pp, st, cpu, limit, Notify);
  }

  lemma {:induction false} BackedKeeps(x: Process, alone: bool)
    ensures var y := Backed(x, alone);
            && Alike(x, y) && y.flags * ALLSTATES == x.flags * ALLSTATES && y.reason == x.reason && y.cpu == x.cpu
            && (Dumped in y.flags <==> Dumped in x.flags) && Foregnd !in y.flags
  {
  }

  lemma {:induction false} RecordBacked(t: Table, t1: Table, t2: Table, u: Table, pp: Ptr, st: Status, cpu: nat, limit: int, r: seq<Ptr>)
    requires pp in t && pp in t1 && SameShape(t, t1) && States(t1) && t1 == t[pp := t1[pp]]
    requires Shows(t[pp], t1[pp], st, cpu) && OneState(t1[pp].flags)
    requires t2 == Swept(t1, r, x => Timed(x, limit)) && SameShape(t1, t2) && States(t2)
    requires pp in t2 && u == t2[pp := Backed(t2[pp], pp == t2[pp].friends)] && pp in r
    ensures SameShape(t, u) && States(u) && StatesAfter(t, u, r, pp, st, cpu)
  {
    BackedKeeps(t2[pp], pp == t2[pp].friends);
    RecordedStates(t, t1, t2, u, pp, st, cpu, limit, r);
    hide Swept, Timed, Backed, StatesAfter, States, SameShape;
    ShapeUpdate(t2, pp, u[pp]);
    ShapeTransitive(t, t1, t2);
    ShapeTransitive(t, t2, u);
    StatesUpdate(t2, pp, u[pp]);
  }

  lemma {:induction false} RecordedStates(t: Table, t1: Table, t2: Table, u: Table, pp: Ptr, st: Status, cpu: nat, limit: int, r: seq<Ptr>)
    requires pp in t && pp in t1 && t1 == t[pp := t1[pp]] && Shows(t[pp], t1[pp], st, cpu) && OneState(t1[pp].flags)
    requires t2 == Swept(t1, r, x => Timed(x, limit)) && States(t2)
    requires pp in t2 && u == t2[pp := Backed(t2[pp], pp == t2[pp].friends)] && pp in r
    ensures StatesAfter(t, u, r, pp, st, cpu) && OneState(u[pp].flags)
  {
    BackedKeeps(t2[pp], pp == t2[pp].friends);
    forall q | q in t1 && q in r ensures SameFate(t1[q], t2[q]) {
      TimedState(t1[q], limit);
    }
    forall q | q in t && q in u && q !in r ensures u[q] == t[q] {
      assert t2[q] == t1[q];
    }
  }

  lemma {:induction false} TimedState(x: Process, limit: int)
    ensures SameFate(x, Timed(x, limit))
  {
    assert (x.flags + {Time}) * ALLSTATES == x.flags * ALLSTATES;
  }

  /** The first half of `pchild`: record the report and gather the flags of the job. */
  method Record(t: Table, pp: Ptr, st: Status, cpu: nat, limit: int, ghost r: seq<Ptr>) returns (u: Table, seen: Flags)
    requires FriendRing(t, r) && r != [] && r[0] == pp && pp in t && States(t) && t[pp].pid != 0
    requires Running in t[pp].flags || Stopped in t[pp].flags
    ensures SameShape(t, u) && States(u) && StatesAfter(t, u, r, pp, st, cpu)
    ensures forall q :: q in r && q in t && q in u ==> Clocked(t[q], u[q], q == pp, t[pp].friends == pp, limit)
    ensures Running !in seen && Reported !in seen <==> Settled(t, r, pp)
    ensures Stopped in seen <==> SomeStopped(t, r, pp, st)
    ensures Foregnd in seen <==> SomeWith(t, r, Foregnd)
    ensures Notify in seen <==> SomeWith(t, r, Notify)
  {
    hide *;
    assert pp in r;
    u := t[pp := Told(t[pp], st, cpu)];
    RecordTold(t, pp, st, cpu, r);
    ghost var t1 := u;
    TimedKeeps(limit);
    SweptShape(t1, r, x => Timed(x, limit));
    u, seen := Sweep(u, pp, x => Timed(x, limit), r);
    SeenAll(t, r, pp, st, cpu, limit, seen);
    ghost var t2 := u;
    u := u[pp := Backed(u[pp], pp == u[pp].friends)];
    RecordBacked(t, t1, t2, u, pp, st, cpu, limit, r);
    AllClocked(t, t1, t2, u, pp, st, cpu, limit, r);
  }

  /**
   The time of a process is to be printed with its job if that was so, if it has ended with no wish of its own and
   took as long as the limit, or if it was to be printed for the process and that is the whole job.
   */
  ghost predicate Clocked(x: Process, y: Process, own: bool, alone: bool, limit: int)
  {
    && (Time in y.flags <==>
          || Time in x.flags || (own && alone && PTime in x.flags)
          || (PTime !in x.flags && Running !in y.flags && Stopped !in y.flags && 0 <= limit <= y.cpu))
    && (PTime in y.flags <==> PTime in x.flags && !(own && alone))
  }

  lemma {:induction false} AllClocked(t: Table, t1: Table, t2: Table, u: Table, pp: Ptr, st: Status, cpu: nat, limit: int, r: seq<Ptr>)
    requires pp in t && t1 == t[pp := Told(t[pp], st, cpu)]
    requires t2 == Swept(t1, r, x => Timed(x, limit))
    requires pp in t2 && u == t2[pp := Backed(t2[pp], pp == t2[pp].friends)] && pp in r
    ensures forall q :: q in r && q in t && q in u ==> Clocked(t[q], u[q], q == pp, t[pp].friends == pp, limit)
  {
    hide Told, Timed, Backed, Clocked;
    ToldTimes(t[pp], st, cpu);
    TimedFriends(t1[pp], limit);
    forall q | q in r && q in t && q in u ensures Clocked(t[q], u[q], q == pp, t[pp].friends == pp, limit) {
      assert t2[q] == Timed(t1[q], limit);
      if q == pp {
        OwnClocked(t[q], t1[q], limit, t[pp].friends == pp);
      } else {
        OtherClocked(t[q], limit, t[pp].friends == pp);
      }
    }
  }

  lemma {:induction false} ToldTimes(x: Process, st: Status, cpu: nat)
    ensures var y := Told(x, st, cpu); (Time in y.flags <==> Time in x.flags) && (PTime in y.flags <==> PTime in x.flags)
    ensures Told(x, st, cpu).friends == x.friends
  {
  }

  lemma {:induction false} TimedFriends(x: Process, limit: int)
    ensures Timed(x, limit).friends == x.friends
  {
  }

  lemma {:induction false} OtherClocked(x: Process, limit: int, alone: bool)
    ensures Clocked(x, Timed(x, limit), false, alone, limit)
  {
    TimedIf(x, limit);
  }

  lemma {:induction false} OwnClocked(x: Process, y: Process, limit: int, alone: bool)
    requires (Time in y.flags <==> Time in x.flags) && (PTime in y.flags <==> PTime in x.flags)
    ensures Clocked(x, Backed(Timed(y, limit), alone), true, alone, limit)
  {
    TimedIf(y, limit);
  }

  lemma {:induction false} TimedIf(x: Process, limit: int)
    ensures x.flags * {PTime, Running, Stopped} == {} <==> PTime !in x.flags && Running !in x.flags && Stopped !in x.flags
  {
    assert forall fl :: fl in x.flags && fl in {PTime, Running, Stopped} ==> fl in x.flags * {PTime, Running, Stopped};
  }

  // -------- reaping --------

  /** The processes of the list that are not flushed. */
  ghost function Alive(t: Table, list: seq<Ptr>): seq<Ptr>
  {
    if list == [] then []
    else (if list[0] in t && t[list[0]].pid != 0 then [list[0]] else []) + Alive(t, list[1..])
  }

  /** `u` holds processes of `t`, unchanged but for their place on the list. */
  ghost predicate SameButNext(t: Table, u: Table)
  {
    forall p :: p in u ==> p in t && u[p] == t[p].(next := u[p].next)
  }

  lemma {:induction false} SameButNextSelf(t: Table)
    ensures SameButNext(t, t)
  {
  }

  /** The table without process `p`, whose predecessor on the list is `fp` (none if null). */
  function Removed(t: Table, fp: Ptr, p: Ptr): Table
    requires p in t && (fp != NULL ==> fp in t)
  {
    (if fp == NULL then t else t[fp := t[fp].(next := t[p].next)]) - {p}
  }

  lemma {:induction false} RemovedIs(t: Table, fp: Ptr, p: Ptr)
    requires p in t && (fp != NULL ==> fp in t)
    ensures fp == NULL ==> Removed(t, fp, p) == t - {p}
    ensures fp != NULL ==> Removed(t, fp, p) == t[fp := t[fp].(next := t[p].next)] - {p}
  {
  }

  lemma {:induction false} SameButNextStep(s: Table, t: Table, u: Table)
    requires SameButNext(s, t) && exists fp, p :: p in t && (fp != NULL ==> fp in t) && u == Removed(t, fp, p)
    ensures SameButNext(s, u)
  {
  }

  lemma {:induction false} ListedHead(t: Table, first: Ptr, list: seq<Ptr>)
    requires Listed(t, first, list) && OnList(t, list)
    ensures first == (if list == [] then NULL else list[0]) && (list != [] ==> first in t && first != NULL)
  {
  }

  lemma {:induction false} ListedAt(t: Table, first: Ptr, list: seq<Ptr>, i: nat)
    requires Listed(t, first, list) && i < |list|
    ensures list[i] in t && t[list[i]].next == if i + 1 < |list| then list[i + 1] else NULL
    decreases i
  {
    if i > 0 {
      ListedAt(t, t[first].next, list[1..], i - 1);
    }
  }

  lemma {:induction false} ListedNext(t: Table, first: Ptr, list: seq<Ptr>, done: seq<Ptr>, rest: seq<Ptr>)
    requires Listed(t, first, list) && list == done + rest && rest != []
    ensures rest[0] in t && t[rest[0]].next == if rest[1..] == [] then NULL else rest[1..][0]
  {
    ListedAt(t, first, list, |done|);
  }

  lemma {:induction false} ListedIn(t: Table, first: Ptr, list: seq<Ptr>, done: seq<Ptr>, rest: seq<Ptr>)
    requires Listed(t, first, list) && list == done + rest
    ensures (done != [] ==> done[|done| - 1] in t) && (rest != [] ==> rest[0] in t && rest[0] != NULL)
  {
    ListedFacts(t, first, list);
    assert done != [] ==> done[|done| - 1] in list;
    assert rest != [] ==> rest[0] in list;
  }

  lemma {:induction false} AliveStep(s: Table, t: Table, p: Ptr, done: seq<Ptr>, rest: seq<Ptr>)
    requires SameButNext(s, t) && p in t && rest != [] && rest[0] == p
    ensures done + Alive(s, rest) == (if t[p].pid != 0 then done + [p] else done) + Alive(s, rest[1..])
  {
  }

  lemma {:induction false} AliveNone(t: Table)
    ensures Alive(t, []) == []
  {
  }

  lemma {:induction false} ListedRemove(t: Table, first: Ptr, done: seq<Ptr>, rest: seq<Ptr>, p: Ptr)
    requires Listed(t, first, done + rest) && rest != [] && rest[0] == p && p in t
    ensures done == [] ==> Listed(Removed(t, NULL, p), t[p].next, rest[1..])
    ensures done != [] ==> done[|done| - 1] in t && done[|done| - 1] != NULL
    ensures done != [] ==> Listed(Removed(t, done[|done| - 1], p), first, done + rest[1..])
    decreases |done|
  {
    ListedFacts(t, first, done + rest);
    if done == [] {
      assert done + rest == rest;
      ListedFrame(t, Removed(t, NULL, p), t[p].next, rest[1..]);
    } else {
      var tail := done[1..];
      assert (done + rest)[1..] == tail + rest;
      assert first == done[0] && first in t && first !in tail + rest && p in tail + rest;
      ListedRemove(t, t[first].next, tail, rest, p);
      var fp := done[|done| - 1];
      var u := Removed(t, fp, p);
      assert (done + rest[1..])[0] == first && (done + rest[1..])[1..] == tail + rest[1..];
      assert forall q :: q in tail + rest[1..] ==> q in tail + rest;
      if tail == [] {
        assert tail + rest[1..] == rest[1..] && fp == first;
        assert forall q :: q in rest[1..] ==> q in tail + rest;
        ListedFrame(Removed(t, NULL, p), u, t[p].next, rest[1..]);
        assert u[first].next == t[p].next;
      }
    }
  }

  /** A process that is not live is in no ring: the table without it is in order. */
  lemma {:induction false} RemoveAll(t: Table, first: Ptr, list: seq<Ptr>, jobs: map<Ptr, seq<Ptr>>, lead: map<Ptr, Ptr>, max: nat,
                  fp: Ptr, p: Ptr, done: seq<Ptr>, rest: seq<Ptr>)
    requires Listed(t, first, list) && OnList(t, list) && Rings(t, jobs) && Led(t, jobs, lead)
    requires Named(t) && Indexed(t, jobs, max) && States(t)
    requires list == done + rest && rest != [] && rest[0] == p && p in t && t[p].pid == 0
    requires fp == (if done == [] then NULL else done[|done| - 1]) && (fp != NULL ==> fp in t)
    ensures var u, list' := Removed(t, fp, p), done + rest[1..];
            && Listed(u, if fp == NULL then t[p].next else first, list') && OnList(u, list')
            && Rings(u, jobs) && Led(u, jobs, lead) && Named(u) && Indexed(u, jobs, max) && States(u)
  {
    hide *;
    RemoveListed(t, first, list, fp, p, done, rest);
    LiveLed(t, jobs, lead, p);
    RemoveRings(t, jobs, lead, fp, p);
    RemoveLed(t, jobs, lead, fp, p);
    RemoveRest(t, jobs, lead, max, fp, p);
  }

  lemma {:induction false} RemoveListed(t: Table, first: Ptr, list: seq<Ptr>, fp: Ptr, p: Ptr, done: seq<Ptr>, rest: seq<Ptr>)
    requires Listed(t, first, list) && OnList(t, list)
    requires list == done + rest && rest != [] && rest[0] == p && p in t
    requires fp == (if done == [] then NULL else done[|done| - 1]) && (fp != NULL ==> fp in t)
    ensures Listed(Removed(t, fp, p), if fp == NULL then t[p].next else first, done + rest[1..])
    ensures OnList(Removed(t, fp, p), done + rest[1..])
  {
    ListedFacts(t, first, list);
    ListedRemove(t, first, done, rest, p);
    assert done == [] ==> done + rest[1..] == rest[1..];
    RemoveOnList(t, list, fp, p, done, rest);
  }

  lemma {:induction false} RemoveOnList(t: Table, list: seq<Ptr>, fp: Ptr, p: Ptr, done: seq<Ptr>, rest: seq<Ptr>)
    requires OnList(t, list) && Distinct(list) && list == done + rest && rest != [] && rest[0] == p && p in t
    requires fp != NULL ==> fp in t
    ensures OnList(Removed(t, fp, p), done + rest[1..])
  {
    hide Distinct;
    assert DirStack.Without(list, |done|) == done + rest[1..] && list[|done|] == p;
    DirStack.WithoutMembers(list, |done|);
  }

  lemma {:induction false} RemoveRings(t: Table, jobs: map<Ptr, seq<Ptr>>, lead: map<Ptr, Ptr>, fp: Ptr, p: Ptr)
    requires Rings(t, jobs) && Led(t, jobs, lead) && p in t && p !in lead && (fp != NULL ==> fp in t)
    ensures Rings(Removed(t, fp, p), jobs)
  {
    hide Removed, FriendRing, Labelled;
    var u := Removed(t, fp, p);
    RemovedCells(t, fp, p);
    forall l | l in jobs ensures FriendRing(u, jobs[l]) && jobs[l][0] == l {
      FriendFrame(t, u, jobs[l]);
    }
  }

  lemma {:induction false} RemoveLed(t: Table, jobs: map<Ptr, seq<Ptr>>, lead: map<Ptr, Ptr>, fp: Ptr, p: Ptr)
    requires Led(t, jobs, lead) && p in t && p !in lead && (fp != NULL ==> fp in t)
    ensures Led(Removed(t, fp, p), jobs, lead)
  {
    forall q | q in lead ensures lead[q] != p {
      assert lead[q] in jobs;
    }
  }

  lemma {:induction false} RemoveRest(t: Table, jobs: map<Ptr, seq<Ptr>>, lead: map<Ptr, Ptr>, max: nat, fp: Ptr, p: Ptr)
    requires Led(t, jobs, lead) && p in t && p !in lead && (fp != NULL ==> fp in t)
    requires Named(t) && Indexed(t, jobs, max) && States(t)
    ensures Named(Removed(t, fp, p)) && Indexed(Removed(t, fp, p), jobs, max) && States(Removed(t, fp, p))
  {
    hide Removed, Named, Indexed, States, SameButNext;
    var u := Removed(t, fp, p);
    RemovedCells(t, fp, p);
    NamedButNext(t, u);
    StatesButNext(t, u);
    IndexedButNext(t, u, jobs, max);
  }

  lemma {:induction false} RemovedCells(t: Table, fp: Ptr, p: Ptr)
    requires p in t && (fp != NULL ==> fp in t)
    ensures SameButNext(t, Removed(t, fp, p)) && forall q :: q in t && q != p ==> q in Removed(t, fp, p)
  {
  }

  lemma {:induction false} NamedButNext(t: Table, u: Table)
    requires Named(t) && SameButNext(t, u)
    ensures Named(u)
  {
  }

  lemma {:induction false} StatesButNext(t: Table, u: Table)
    requires States(t) && SameButNext(t, u)
    ensures States(u)
  {
  }

  lemma {:induction false} IndexedButNext(t: Table, u: Table, jobs: map<Ptr, seq<Ptr>>, max: nat)
    requires Indexed(t, jobs, max) && SameButNext(t, u)
    requires forall l :: l in jobs ==> l in u
    ensures Indexed(u, jobs, max)
  {
    FewerIndices(t, u, jobs, jobs, max, max);
  }

  lemma {:induction false} RefsConcat(t: Table, a: seq<Ptr>, b: seq<Ptr>, d: Ptr)
    requires forall p :: p in a + b ==> p in t
    ensures (forall p :: p in a ==> p in t) && (forall p :: p in b ==> p in t)
    ensures Refs(t, a + b, d) == Refs(t, a, d) + Refs(t, b, d)
  {
    assert forall p :: p in a ==> p in a + b;
    assert forall p :: p in b ==> p in a + b;
    if a == [] {
      assert a + b == b;
    } else {
      assert (a + b)[1..] == a[1..] + b;
      assert forall p :: p in a[1..] + b ==> p in a + b;
      RefsConcat(t, a[1..], b, d);
    }
  }

  /** The directory memory after the process that held `d` is gone. */
  ghost function AfterRelease(dirs: Memory, d: Ptr, stack: seq<Ptr>): Memory
    requires d != NULL ==> d in dirs && dirs[d].count > 0
  {
    if d == NULL then dirs
    else if dirs[d].count == 1 && d !in stack then dirs - {d}
    else DirStack.Lowered(dirs, d)
  }

  /** With process `p` goes one count of the directory it holds. */
  lemma {:induction false} RemoveRefs(t: Table, u: Table, list: seq<Ptr>, p: Ptr, done: seq<Ptr>, rest: seq<Ptr>, d: Ptr)
    requires OnList(t, list) && list == done + rest && rest != [] && rest[0] == p && p in t
    requires OnList(u, done + rest[1..]) && forall q :: q in u ==> q in t && u[q].cwd == t[q].cwd
    ensures Refs(u, done + rest[1..], d) == Refs(t, list, d) - if t[p].cwd == d then 1 else 0
  {
    var list' := done + rest[1..];
    RefsConcat(t, done, rest, d);
    RefsConcat(u, done, rest[1..], d);
    RefsFrame(t, u, done, d);
    RefsFrame(t, u, rest[1..], d);
  }

  lemma {:induction false} RemoveHolding(t: Table, list: seq<Ptr>, lead: map<Ptr, Ptr>, dirs: Memory, head: Ptr, fp: Ptr, p: Ptr,
                      done: seq<Ptr>, rest: seq<Ptr>, stack: seq<Ptr>)
    requires Holding(t, list, lead, dirs, head) && NULL !in dirs && p in t && (fp != NULL ==> fp in t)
    requires list == done + rest && rest != [] && rest[0] == p && OnList(Removed(t, fp, p), done + rest[1..])
    ensures t[p].cwd != NULL ==> t[p].cwd in dirs && t[p].cwd != head && dirs[t[p].cwd].count > 0
    ensures Holding(Removed(t, fp, p), done + rest[1..], lead, AfterRelease(dirs, t[p].cwd, stack), head)
  {
    hide Removed, Refs;
    var u, list', d0 := Removed(t, fp, p), done + rest[1..], t[p].cwd;
    RemovedCells(t, fp, p);
    assert p in list;
    RefsPositive(t, list, p);
    var dirs' := AfterRelease(dirs, d0, stack);
    forall d | d in dirs' && d != head ensures dirs'[d].count == Refs(u, list', d) {
      RemoveRefs(t, u, list, p, done, rest, d);
    }
    forall q | q in u && u[q].cwd != NULL ensures u[q].cwd in dirs' && u[q].cwd != head {
      if u[q].cwd == d0 {
        assert q in list';
        RefsPositive(u, list', q);
        RemoveRefs(t, u, list, p, done, rest, d0);
      }
    }
  }

  // -------- directories and jobs together --------

  datatype Command =
    | Cd(word: string, reach: bool, name: string)
    | Pushd(word: string, reach: bool, name: string)
    | PushdSwap(reach: bool)
    | Popd(reach: bool)
    | PopdAt(word: string)

  lemma {:induction false} Homes(t: Table, list: seq<Ptr>, lead: map<Ptr, Ptr>, dirs: Memory, head: Ptr)
    requires Holding(t, list, lead, dirs, head)
    ensures forall p :: p in t && t[p].cwd != NULL ==> t[p].cwd in dirs
  {
  }

  /** Entries that are held stay and keep their counts; new entries are held by nobody. */
  ghost predicate CountsKept(dirs: Memory, dirs': Memory)
  {
    && (forall d :: d in dirs && d in dirs' ==> dirs'[d].count == dirs[d].count)
    && (forall d :: d in dirs && d !in dirs' ==> dirs[d].count == 0)
    && (forall d :: d in dirs' && d !in dirs ==> dirs'[d].count == 0)
  }

  lemma {:induction false} HoldingKept(t: Table, list: seq<Ptr>, lead: map<Ptr, Ptr>, dirs: Memory, dirs': Memory, head: Ptr)
    requires Holding(t, list, lead, dirs, head) && CountsKept(dirs, dirs') && NULL !in dirs'
    ensures Holding(t, list, lead, dirs', head)
  {
    forall p | p in t && t[p].cwd != NULL ensures t[p].cwd in dirs' {
      assert p in list;
      RefsPositive(t, list, p);
    }
    forall d | d in dirs' && d != head ensures dirs'[d].count == Refs(t, list, d) {
      if d !in dirs && Refs(t, list, d) != 0 {
        var p := RefsHolder(t, list, d);
      }
    }
  }

  lemma {:induction false} RefsHolder(t: Table, list: seq<Ptr>, d: Ptr) returns (p: Ptr)
    requires (forall q :: q in list ==> q in t) && Refs(t, list, d) > 0
    ensures p in list && t[p].cwd == d
  {
    p := list[0];
    if t[p].cwd != d {
      p := RefsHolder(t, list[1..], d);
    }
  }
}
