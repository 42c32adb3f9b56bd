/**
 The shell's table of processes: one list of them all, and for every job not yet
 flushed a ring of its processes along `friends`.
 */
module Procs {
  import opened Dirs

  datatype Flag =
    | Running | Stopped | NExited | AExited | Signaled | Notify | Time | Awaited
    | Foregnd | Dumped | Err | Pou | Reported | Interrupted | PTime | NeedNote

  type Flags = set<Flag>

  const ALLSTATES: Flags := {Running, Stopped, NExited, AExited, Signaled, Interrupted}

  datatype Process = Process(
    next: Ptr, friends: Ptr, cwd: Ptr, flags: Flags,
    index: nat, pid: nat, jobid: nat, cpu: nat, reason: nat)

  type Table = map<Ptr, Process>

  /** Exactly one of the state bits is set. */
  predicate OneState(f: Flags)
  {
    f * ALLSTATES in {{Running}, {Stopped}, {NExited}, {AExited}, {Signaled}, {Interrupted}}
  }

  // -------- the list of all processes --------

  ghost predicate Listed(t: Table, first: Ptr, list: seq<Ptr>)
    decreases |list|
  {
    if list == [] then first == NULL
    else first != NULL && first == list[0] && first in t && first !in list[1..] && Listed(t, t[first].next, list[1..])
  }

  ghost predicate OnList(t: Table, list: seq<Ptr>)
  {
    (forall p :: p in t ==> p in list) && (forall p :: p in list ==> p in t)
  }

  lemma {:induction false} ListedFrame(t: Table, u: Table, first: Ptr, list: seq<Ptr>)
    requires Listed(t, first, list)
    requires forall p :: p in list && p in t ==> p in u && u[p].next == t[p].next
    ensures Listed(u, first, list)
    decreases |list|
  {
    if list != [] {
      ListedFrame(t, u, t[first].next, list[1..]);
    }
  }

  lemma {:induction false} ListedFacts(t: Table, first: Ptr, list: seq<Ptr>)
    requires Listed(t, first, list)
    ensures Distinct(list) && forall p :: p in list ==> p in t && p != NULL
    decreases |list|
  {
    if list != [] {
      ListedFacts(t, t[first].next, list[1..]);
      assert list == [list[0]] + list[1..];
    }
  }

  // -------- rings of friends --------

  ghost predicate FriendChain(t: Table, r: seq<Ptr>)
  {
    if r == [] then true
    else if |r| == 1 then r[0] in t
    else r[0] in t && t[r[0]].friends == r[1] && r[0] !in r[1..] && FriendChain(t, r[1..])
  }

  /** Going along `friends` from r[0] one meets the processes of `r`, each once, and is back at r[0]. */
  ghost predicate FriendRing(t: Table, r: seq<Ptr>)
  {
    r != [] && FriendChain(t, r) && r[|r| - 1] in t && t[r[|r| - 1]].friends == r[0]
  }

  /** The same, process by process. */
  ghost predicate RingEach(t: Table, r: seq<Ptr>)
  {
    && |r| > 0 && Distinct(r) && (forall i :: 0 <= i < |r| ==> r[i] in t)
    && (forall i {:trigger t[r[i]].friends} :: 0 <= i < |r| - 1 ==> t[r[i]].friends == r[i + 1])
    && t[r[|r| - 1]].friends == r[0]
  }

  lemma {:induction false} FriendChainEach(t: Table, r: seq<Ptr>)
    ensures FriendChain(t, r) <==>
            && Distinct(r) && (forall i :: 0 <= i < |r| ==> r[i] in t)
            && (forall i {:trigger t[r[i]].friends} :: 0 <= i < |r| - 1 ==> t[r[i]].friends == r[i + 1])
  {
    if |r| > 1 {
      var s := r[1..];
      FriendChainEach(t, s);
      assert forall i {:trigger s[i]} :: 0 <= i < |s| ==> s[i] == r[i + 1];
      assert forall i {:trigger r[i]} :: 0 < i < |r| ==> r[i] == s[i - 1];
    }
  }

  lemma {:induction false} FriendRingEach(t: Table, r: seq<Ptr>)
    ensures FriendRing(t, r) <==> RingEach(t, r)
  {
    FriendChainEach(t, r);
  }

  lemma {:induction false} FriendRotate(t: Table, a: seq<Ptr>, b: seq<Ptr>)
    requires FriendRing(t, a + b)
    ensures FriendRing(t, b + a)
  {
    FriendRingEach(t, a + b);
    FriendRingEach(t, b + a);
    RingEachRotate(t, a, b);
  }

  lemma {:induction false} RingEachRotate(t: Table, a: seq<Ptr>, b: seq<Ptr>)
    requires RingEach(t, a + b)
    ensures RingEach(t, b + a)
  {
    if a == [] || b == [] {
      assert a + b == b + a;
    } else {
      var c, d := a + b, b + a;
      assert forall i {:trigger d[i]} :: 0 <= i < |d| ==> d[i] == if i < |b| then c[|a| + i] else c[i - |b|];
    }
  }

  /** The ring read from one of its members. */
  lemma {:induction false} RingFrom(t: Table, r: seq<Ptr>, p: Ptr) returns (s: seq<Ptr>)
    requires FriendRing(t, r) && p in r
    ensures FriendRing(t, s) && s[0] == p && |s| == |r| && forall q :: q in s <==> q in r
  {
    var k :| 0 <= k < |r| && r[k] == p;
    assert r == r[..k] + r[k..];
    FriendRotate(t, r[..k], r[k..]);
    s := r[k..] + r[..k];
  }

  lemma {:induction false} FriendFrame(t: Table, u: Table, r: seq<Ptr>)
    requires FriendRing(t, r)
    requires forall p :: p in r && p in t ==> p in u && u[p].friends == t[p].friends
    ensures FriendRing(u, r)
  {
    FriendRingEach(t, r);
    FriendRingEach(u, r);
  }

  /** A new process `p` linked in at the end of the ring, just before the leader. */
  lemma {:induction false} FriendAppend(t: Table, u: Table, r: seq<Ptr>, p: Ptr)
    requires FriendRing(t, r) && p !in r && p in u && u[p].friends == r[0]
    requires forall q :: q in r ==> q in t && q in u && u[q].friends == if q == r[|r| - 1] then p else t[q].friends
    ensures FriendRing(u, r + [p])
  {
    FriendRingEach(t, r);
    FriendRingEach(u, r + [p]);
    var s := r + [p];
    assert forall i {:trigger s[i]} :: 0 <= i < |r| ==> s[i] == r[i];
  }

  // -------- jobs --------

  /** `jobs` gives the ring of every unflushed job by its leader. */
  ghost predicate Rings(t: Table, jobs: map<Ptr, seq<Ptr>>)
  {
    forall l :: l in jobs ==> FriendRing(t, jobs[l]) && jobs[l][0] == l
  }

  /** `lead` gives the leader of a process: the one in whose ring it is. Leaders lead themselves. */
  ghost predicate Shared(jobs: map<Ptr, seq<Ptr>>, lead: map<Ptr, Ptr>)
  {
    && (forall l, p :: l in jobs && p in jobs[l] ==> p in lead && lead[p] == l)
    && (forall p :: p in lead ==> lead[p] in jobs && p in jobs[lead[p]])
    && (forall l :: l in jobs ==> l in lead && lead[l] == l)
  }

  /** The processes with a leader are those not flushed; they have its id as job id, and its index. */
  ghost predicate Labelled(t: Table, lead: map<Ptr, Ptr>)
  {
    && (forall p :: p in t ==> (t[p].pid != 0 <==> p in lead))
    && (forall p :: p in lead ==> p in t && lead[p] in t && t[p].jobid == t[lead[p]].pid && t[p].index == t[lead[p]].index)
  }

  ghost predicate Led(t: Table, jobs: map<Ptr, seq<Ptr>>, lead: map<Ptr, Ptr>)
  {
    Shared(jobs, lead) && Labelled(t, lead)
  }

  /** Live processes have different ids. */
  ghost predicate Named(t: Table)
  {
    forall p, q :: p in t && q in t && t[p].pid != 0 && t[p].pid == t[q].pid ==> p == q
  }

  /** Jobs have different positive indices, of which `max` is the largest; flushed processes have none. */
  ghost predicate Indexed(t: Table, jobs: map<Ptr, seq<Ptr>>, max: nat)
  {
    && (forall l :: l in jobs ==> l in t && t[l].index > 0)
    && (forall l, k :: l in jobs && k in jobs && t[l].index == t[k].index ==> l == k)
    && (forall p :: p in t && t[p].pid == 0 ==> t[p].index == 0)
    && (forall p :: p in t ==> t[p].index <= max)
    && (max == 0 || exists l :: l in jobs && t[l].index == max)
  }

  /** There is a previous job as soon as two jobs that are not current could be it. */
  ghost predicate Full(jobs: map<Ptr, seq<Ptr>>, cur: Ptr, prev: Ptr)
  {
    prev == NULL ==> forall k, l :: k in jobs && l in jobs && k != cur && l != cur ==> k == l
  }

  /** The current and previous job are two different jobs; there is no previous without a current one. */
  ghost predicate Picked(jobs: map<Ptr, seq<Ptr>>, cur: Ptr, prev: Ptr)
  {
    && NULL !in jobs && Full(jobs, cur, prev)
    && (cur != NULL ==> cur in jobs && cur != prev)
    && (prev != NULL ==> prev in jobs && cur != NULL)
  }

  ghost predicate States(t: Table)
  {
    forall p :: p in t && t[p].pid != 0 ==> OneState(t[p].flags)
  }

  /** How many processes on the list hold directory `d`. */
  ghost function Refs(t: Table, list: seq<Ptr>, d: Ptr): nat
    requires forall p :: p in list ==> p in t
  {
    if list == [] then 0
    else (if t[list[0]].cwd == d then 1 else 0) + Refs(t, list[1..], d)
  }

  lemma {:induction false} RefsFrame(t: Table, u: Table, list: seq<Ptr>, d: Ptr)
    requires forall p :: p in list ==> p in t && p in u && u[p].cwd == t[p].cwd
    ensures Refs(u, list, d) == Refs(t, list, d)
  {
    if list != [] {
      RefsFrame(t, u, list[1..], d);
    }
  }

  lemma {:induction false} RefsPositive(t: Table, list: seq<Ptr>, p: Ptr)
    requires (forall q :: q in list ==> q in t) && p in list
    ensures Refs(t, list, t[p].cwd) > 0
  {
    if list[0] != p {
      RefsPositive(t, list[1..], p);
    }
  }

  /** Leaders hold one directory each, other live processes none, and each is counted as often as it is held. */
  ghost predicate Holding(t: Table, list: seq<Ptr>, lead: map<Ptr, Ptr>, dirs: Memory, head: Ptr)
  {
    && OnList(t, list)
    && (forall p :: p in t && t[p].cwd != NULL ==> t[p].cwd in dirs && t[p].cwd != head)
    && (forall p :: p in lead && p in t ==> (t[p].cwd != NULL <==> lead[p] == p))
    && (forall d :: d in dirs && d != head ==> dirs[d].count == Refs(t, list, d))
  }

  /** The leader is the one process of a job whose id is the job's. */
  lemma {:induction false} LeaderById(t: Table, jobs: map<Ptr, seq<Ptr>>, lead: map<Ptr, Ptr>, p: Ptr)
    requires Rings(t, jobs) && Led(t, jobs, lead) && Named(t) && p in lead
    ensures t[p].pid == t[p].jobid <==> p == lead[p]
    ensures lead[lead[p]] == lead[p] && lead[p] in lead
  {
    var l := lead[p];
    assert jobs[l][0] == l && l in jobs[l];
  }
}
