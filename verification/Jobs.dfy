/**
  The build driver's compile jobs: a fixed number of slots, each with a child
  process at most, and the counters and the link list that account for every
  file. When and how a child ends is up to the system.
 */
module Jobs {

  type Object = string

  /** A job slot: `pid` is 0 when nothing runs in it. */
  datatype Job = Job(objname: Object, pid: int, exitcode: int)

  /** What `waitpid` says without waiting, and after waiting. */
  datatype Poll = Running | Ended(exitcode: int)

  datatype Wait = Exited(exitcode: int) | WaitFailed

  function Active(j: Job): multiset<Object> {
    if j.pid != 0 then multiset{j.objname} else multiset{}
  }

  /** The objects being compiled. */
  function InWork(jobs: seq<Job>): multiset<Object> {
    if jobs == [] then multiset{} else InWork(jobs[..|jobs| - 1]) + Active(jobs[|jobs| - 1])
  }

  lemma AddLast(a: multiset<Object>, b: multiset<Object>, c: multiset<Object>, d: multiset<Object>,
      e: multiset<Object>)
    requires a + b == c + d
    ensures a + e + b == c + e + d
  {
    assert a + e + b == a + b + e && c + e + d == c + d + e;
  }

  lemma InWorkLast(jobs: seq<Job>)
    requires jobs != []
    ensures InWork(jobs) == InWork(jobs[..|jobs| - 1]) + Active(jobs[|jobs| - 1])
  {
  }

  /** One slot changed changes its own part. */
  lemma {:induction false} InWorkUpdate(jobs: seq<Job>, i: nat, j: Job)
    requires i < |jobs|
    decreases |jobs|
    ensures InWork(jobs[i := j]) + Active(jobs[i]) == InWork(jobs) + Active(j)
  {
    var n := |jobs| - 1;
    InWorkLast(jobs);
    InWorkLast(jobs[i := j]);
    if i == n {
      assert jobs[i := j][..n] == jobs[..n];
    } else {
      InWorkUpdate(jobs[..n], i, j);
      assert jobs[i := j][..n] == jobs[..n][i := j];
      AddLast(InWork(jobs[..n][i := j]), Active(jobs[i]), InWork(jobs[..n]), Active(j), Active(jobs[n]));
    }
  }

  lemma {:induction false} NoneInWork(jobs: seq<Job>)
    requires forall i :: 0 <= i < |jobs| ==> jobs[i].pid == 0
    ensures InWork(jobs) == multiset{}
  {
    if jobs != [] { NoneInWork(jobs[..|jobs| - 1]); }
  }

  /** Every object given was skipped, compiled or failed, or is in work; and the
      link list is what was skipped or compiled. */
  ghost predicate Balanced(given: multiset<Object>, list: seq<Object>, skipped: multiset<Object>,
      compiled: multiset<Object>, failed: multiset<Object>, work: multiset<Object>)
  {
    given == skipped + compiled + failed + work && multiset(list) == skipped + compiled
  }

  lemma SkipBalanced(g: multiset<Object>, l: seq<Object>, a: multiset<Object>, b: multiset<Object>,
      c: multiset<Object>, d: multiset<Object>, o: Object)
    requires Balanced(g, l, a, b, c, d)
    ensures Balanced(g + multiset{o}, l + [o], a + multiset{o}, b, c, d) == true
    ensures |g + multiset{o}| == |g| + 1 && |a + multiset{o}| == |a| + 1
  {
    var e := multiset{o};
    assert a + b + c + d + e == (a + e) + b + c + d;
    assert multiset(l + [o]) == multiset(l) + e;
    assert a + b + e == (a + e) + b;
  }

  lemma TakeBalanced(g: multiset<Object>, l: seq<Object>, a: multiset<Object>, b: multiset<Object>,
      c: multiset<Object>, d: multiset<Object>, o: Object)
    requires Balanced(g, l, a, b, c, d)
    ensures Balanced(g + multiset{o}, l, a, b, c, d + multiset{o}) == true && |g + multiset{o}| == |g| + 1
  {
    assert a + b + c + d + multiset{o} == a + b + c + (d + multiset{o});
  }

  lemma FailBalanced(g: multiset<Object>, l: seq<Object>, a: multiset<Object>, b: multiset<Object>,
      c: multiset<Object>, d: multiset<Object>, o: Object)
    requires Balanced(g, l, a, b, c, d + multiset{o})
    ensures Balanced(g, l, a, b, c + multiset{o}, d) == true && |c + multiset{o}| == |c| + 1
  {
    var e := multiset{o};
    assert a + b + c + (d + e) == a + b + (c + e) + d;
  }

  lemma CompiledBalanced(g: multiset<Object>, l: seq<Object>, a: multiset<Object>, b: multiset<Object>,
      c: multiset<Object>, d: multiset<Object>, o: Object)
    requires Balanced(g, l, a, b, c, d + multiset{o})
    ensures Balanced(g, l + [o], a, b + multiset{o}, c, d) == true && |b + multiset{o}| == |b| + 1
  {
    var e := multiset{o};
    assert a + b + c + (d + e) == a + (b + e) + c + d;
    assert multiset(l + [o]) == multiset(l) + e;
    assert a + b + e == a + (b + e);
  }

  lemma NoExtra(a: multiset<Object>)
    ensures a + multiset{} == a
  {
  }

  /** A job begun in a free slot is in work. */
  lemma Entered(js: seq<Job>, i: nat, j: Job)
    requires i < |js| && js[i].pid == 0 && j.pid != 0
    ensures InWork(js[i := j]) == InWork(js) + multiset{j.objname}
  {
    InWorkUpdate(js, i, j);
    NoExtra(InWork(js[i := j]));
  }

  /** A job that has ended is out of work, and still to be accounted for. */
  lemma FreedIs(js: seq<Job>, i: nat, j: Job, extra: multiset<Object>)
    requires i < |js| && js[i].pid != 0 && j.pid == 0 && j.objname == js[i].objname
    ensures InWork(js) + extra == InWork(js[i := j]) + extra + multiset{j.objname}
  {
    InWorkUpdate(js, i, j);
    AddLast(InWork(js[i := j]), multiset{j.objname}, InWork(js), multiset{}, extra);
  }

  /** The object was compiled: its child has ended, and with exit code 0. */
  predicate Succeeds(poll: Poll, w: Wait) {
    if poll.Ended? then poll.exitcode == 0 else w.Exited? && w.exitcode == 0
  }

  /** The objects in work whose child a wait shows to have succeeded, or not. */
  function Awaited(jobs: seq<Job>, waits: seq<Wait>, good: bool): multiset<Object>
    requires |jobs| == |waits|
  {
    if jobs == [] then multiset{}
    else
      var n := |jobs| - 1;
      Awaited(jobs[..n], waits[..n], good)
        + if Succeeds(Running, waits[n]) == good then Active(jobs[n]) else multiset{}
  }

  lemma SetTwice(js: seq<Job>, i: nat, j: Job, j': Job)
    requires i < |js|
    ensures js[i := j][i := j'] == js[i := j']
  {
  }

  /** What came of the job of a slot, of those compiled and those failed before. */
  ghost predicate Judged(j: Job, good: bool, compiled0: multiset<Object>, failed0: multiset<Object>,
      compiled: multiset<Object>, failed: multiset<Object>)
  {
    && compiled == compiled0 + (if good then Active(j) else multiset{})
    && failed == failed0 + (if good then multiset{} else Active(j))
  }

  lemma JudgedIdle(j: Job, good: bool, c: multiset<Object>, f: multiset<Object>)
    ensures j.pid == 0 ==> Judged(j, good, c, f, c, f) == true
  {
  }

  lemma JudgedIs(j: Job, good: bool, c0: multiset<Object>, f0: multiset<Object>, c: multiset<Object>,
      f: multiset<Object>)
    requires j.pid != 0
    requires good ==> c == c0 + multiset{j.objname} && f == f0
    requires !good ==> f == f0 + multiset{j.objname} && c == c0
    ensures Judged(j, good, c0, f0, c, f) == true
  {
  }

  /** What came of the jobs in the first `n` slots. */
  ghost predicate AllJudged(jobs: seq<Job>, waits: seq<Wait>, n: nat, compiled0: multiset<Object>,
      failed0: multiset<Object>, compiled: multiset<Object>, failed: multiset<Object>)
    requires n <= |jobs| == |waits|
  {
    && compiled == compiled0 + Awaited(jobs[..n], waits[..n], true)
    && failed == failed0 + Awaited(jobs[..n], waits[..n], false)
  }

  lemma AllJudgedNone(jobs: seq<Job>, waits: seq<Wait>, c: multiset<Object>, f: multiset<Object>)
    requires |jobs| == |waits|
    ensures AllJudged(jobs, waits, 0, c, f, c, f) == true
  {
  }

  lemma AllJudgedNext(jobs: seq<Job>, waits: seq<Wait>, i: nat, c0: multiset<Object>, f0: multiset<Object>,
      c1: multiset<Object>, f1: multiset<Object>, c: multiset<Object>, f: multiset<Object>)
    requires i < |jobs| == |waits| && AllJudged(jobs, waits, i, c0, f0, c1, f1)
    requires Judged(jobs[i], Succeeds(Running, waits[i]), c1, f1, c, f)
    ensures AllJudged(jobs, waits, i + 1, c0, f0, c, f) == true
  {
    assert jobs[..i + 1][..i] == jobs[..i] && waits[..i + 1][..i] == waits[..i];
  }

  lemma AllJudgedAll(jobs: seq<Job>, waits: seq<Wait>, c0: multiset<Object>, f0: multiset<Object>,
      c: multiset<Object>, f: multiset<Object>)
    requires |jobs| == |waits| && AllJudged(jobs, waits, |jobs|, c0, f0, c, f)
    ensures c == c0 + Awaited(jobs, waits, true) && f == f0 + Awaited(jobs, waits, false)
  {
    assert jobs[..|jobs|] == jobs && waits[..|jobs|] == waits;
  }

  /** The slot can take a job: nothing runs in it, or a poll shows that nothing does any more. */
  predicate Vacant(jobs: seq<Job>, polls: seq<Poll>, i: nat)
    requires i < |jobs| == |polls|
  {
    jobs[i].pid == 0 || polls[i].Ended?
  }

  /** The first slot that can take a job, or any when none can. */
  predicate Chosen(jobs: seq<Job>, polls: seq<Poll>, r: nat, i: nat)
    requires i < |jobs| == |polls|
  {
    if Vacant(jobs, polls, i) then forall k :: 0 <= k < i ==> !Vacant(jobs, polls, k)
    else i == r % |jobs| && forall k :: 0 <= k < |jobs| ==> !Vacant(jobs, polls, k)
  }

  lemma ChosenFree(jobs: seq<Job>, polls: seq<Poll>, r: nat, i: nat)
    requires i < |jobs| == |polls| && Vacant(jobs, polls, i) && forall k :: 0 <= k < i ==> !Vacant(jobs, polls, k)
    ensures Chosen(jobs, polls, r, i) == true
  {
  }

  lemma ChosenAny(jobs: seq<Job>, polls: seq<Poll>, r: nat)
    requires |jobs| == |polls| > 0 && forall k :: 0 <= k < |jobs| ==> !Vacant(jobs, polls, k)
    ensures Chosen(jobs, polls, r, r % |jobs|) == true && jobs[r % |jobs|].pid != 0 && polls[r % |jobs|] == Running
  {
    assert !Vacant(jobs, polls, r % |jobs|);
  }

  /** The first `n` slots have become free, the others are as they were. */
  predicate Freed(js: seq<Job>, js': seq<Job>, n: nat) {
    && n <= |js| == |js'|
    && (forall k :: 0 <= k < n ==> js'[k].pid == 0)
    && (forall k :: n <= k < |js| ==> js'[k] == js[k])
  }

  lemma FreedNext(js: seq<Job>, a: seq<Job>, b: seq<Job>, i: nat)
    requires Freed(js, a, i) && i < |js| == |b| && b == a[i := b[i]] && b[i].pid == 0
    ensures Freed(js, b, i + 1) == true && a[i] == js[i]
  {
  }

  /** A file to be processed, and what the system says while it is. */
  datatype File = File(objname: Object, needsRebuild: bool, polls: seq<Poll>, r: nat, w: Wait, pid: int)

  /** The slots, and the objects whose child has failed. */
  datatype Slots = Slots(jobs: seq<Job>, failed: multiset<Object>)

  function FirstVacant(jobs: seq<Job>, polls: seq<Poll>, i: nat): (r: nat)
    requires i <= |jobs| == |polls|
    ensures r <= |jobs|
    decreases |jobs| - i
  {
    if i == |jobs| || Vacant(jobs, polls, i) then i else FirstVacant(jobs, polls, i + 1)
  }

  function SlotFor(jobs: seq<Job>, polls: seq<Poll>, r: nat): (i: nat)
    requires |jobs| == |polls| > 0
    ensures i < |jobs|
  {
    var i := FirstVacant(jobs, polls, 0);
    if i < |jobs| then i else r % |jobs|
  }

  /** Nothing is running, and nothing has failed. */
  function Idle(n: nat): Slots {
    Slots(seq(n, _ => Job("", 0, 0)), multiset{})
  }

  /** A file out of date takes a slot; the object there before may have failed. */
  function Taken(s: Slots, f: File): (s': Slots)
    requires |s.jobs| == |f.polls| > 0
    ensures |s'.jobs| == |s.jobs|
  {
    if !f.needsRebuild then s
    else
      var i := SlotFor(s.jobs, f.polls, f.r);
      Slots(s.jobs[i := Job(f.objname, f.pid, 0)],
        s.failed + if Succeeds(f.polls[i], f.w) then multiset{} else Active(s.jobs[i]))
  }

  lemma {:induction false} FirstVacantIs(jobs: seq<Job>, polls: seq<Poll>, i: nat, n: nat)
    requires i <= n <= |jobs| == |polls| && forall k :: i <= k < n ==> !Vacant(jobs, polls, k)
    requires n < |jobs| ==> Vacant(jobs, polls, n)
    ensures FirstVacant(jobs, polls, i) == n
    decreases n - i
  {
    if i < n { FirstVacantIs(jobs, polls, i + 1, n); }
  }

  lemma ChosenIs(jobs: seq<Job>, polls: seq<Poll>, r: nat, i: nat)
    requires i < |jobs| == |polls| && Chosen(jobs, polls, r, i)
    ensures SlotFor(jobs, polls, r) == i
  {
    FirstVacantIs(jobs, polls, 0, if Vacant(jobs, polls, i) then i else |jobs|);
  }

  lemma TakenIs(jobs: seq<Job>, f: File, i: nat, c0: multiset<Object>, f0: multiset<Object>, c: multiset<Object>,
      failed: multiset<Object>)
    requires i < |jobs| == |f.polls| && Chosen(jobs, f.polls, f.r, i) && f.needsRebuild
    requires Judged(jobs[i], Succeeds(f.polls[i], f.w), c0, f0, c, failed)
    ensures Taken(Slots(jobs, f0), f) == Slots(jobs[i := Job(f.objname, f.pid, 0)], failed)
  {
    ChosenIs(jobs, f.polls, f.r, i);
  }

  datatype Linking = Refused | UpToDate | Links(objects: seq<Object>)

  class Build {
    const jobs: array<Job>
    var nprocessed: nat
    var nskipped: nat
    var ncompiled: nat
    var nfailed: nat
    var linklist: seq<Object>

    /** What became of the objects processed so far. */
    ghost var given: multiset<Object>
    ghost var skipped: multiset<Object>
    ghost var compiled: multiset<Object>
    ghost var failed: multiset<Object>

    /** Every object processed was skipped, compiled or failed, or is in work; and
        the link list is what was skipped or compiled. */
    ghost predicate Accounts(work: multiset<Object>)
      reads this
    {
      && Balanced(given, linklist, skipped, compiled, failed, work)
      && nprocessed == |given| && nskipped == |skipped| && ncompiled == |compiled| && nfailed == |failed|
    }

    ghost predicate Valid()
      reads this, jobs
    {
      jobs.Length > 0 && Accounts(InWork(jobs[..]))
    }

    ghost function State(): Slots
      reads this, jobs
    {
      Slots(jobs[..], failed)
    }

    constructor (nprocessors: nat)
      requires nprocessors > 0
      ensures Valid() && fresh(jobs) && jobs.Length == nprocessors
      ensures given == multiset{} && skipped == multiset{} && State() == Idle(nprocessors)
    {
      jobs := new Job[nprocessors](i => Job("", 0, 0));
      nprocessed, nskipped, ncompiled, nfailed, linklist := 0, 0, 0, 0, [];
      given, skipped, compiled, failed := multiset{}, multiset{}, multiset{}, multiset{};
      new;
      NoneInWork(jobs[..]);
    }

    /** `query_complete`: a child that has ended is reaped. */
    method QueryComplete(i: nat, poll: Poll) returns (done: bool)
      requires i < jobs.Length && jobs[i].pid != 0
      modifies jobs
      ensures done == poll.Ended?
      ensures jobs[..] == old(jobs[..])[i := if done then jobs[i].(pid := 0, exitcode := poll.exitcode)
          else old(jobs[i])]
      ensures jobs[i].objname == old(jobs[i].objname)
    {
      done := poll.Ended?;
      if done { jobs[i] := jobs[i].(pid := 0, exitcode := poll.exitcode); }
    }

    /** `wait`: the slot is free afterwards, whatever came of the wait. */
    method WaitFor(i: nat, w: Wait) returns (ok: bool)
      requires i < jobs.Length
      modifies jobs
      ensures ok == (old(jobs[i].pid) == 0 || w.Exited?)
      ensures jobs[..] == old(jobs[..])[i := jobs[i]] && jobs[i].pid == 0 && jobs[i].objname == old(jobs[i].objname)
      ensures old(jobs[i].pid) != 0 && w.Exited? ==> jobs[i].exitcode == w.exitcode
    {
      if jobs[i].pid == 0 { return true; }
      ok := w.Exited?;
      jobs[i] := if ok then jobs[i].(pid := 0, exitcode := w.exitcode) else jobs[i].(pid := 0);
    }

    /** An object out of work has failed. */
    method Fail(o: Object, ghost work: multiset<Object>)
      requires Accounts(work + multiset{o}) == true
      modifies `nfailed, `failed
      ensures Accounts(work) == true && failed == old(failed) + multiset{o}
    {
      FailBalanced(given, linklist, skipped, compiled, failed, work, o);
      nfailed := nfailed + 1;
      failed := failed + multiset{o};
    }

    /** An object out of work has been compiled, and is to be linked. */
    method Compiled(o: Object, ghost work: multiset<Object>)
      requires Accounts(work + multiset{o}) == true
      modifies `ncompiled, `linklist, `compiled
      ensures Accounts(work) == true && compiled == old(compiled) + multiset{o}
    {
      CompiledBalanced(given, linklist, skipped, compiled, failed, work, o);
      linklist := linklist + [o];
      ncompiled := ncompiled + 1;
      compiled := compiled + multiset{o};
    }

    /** What became of a job whose slot is free again. */
    method Settle(i: nat, ok: bool, ghost work: multiset<Object>)
      requires i < jobs.Length && Accounts(work + multiset{jobs[i].objname}) == true
      modifies `nfailed, `ncompiled, `linklist, `failed, `compiled
      ensures Accounts(work) == true
      ensures (ok && jobs[i].exitcode == 0) ==>
          compiled == old(compiled) + multiset{jobs[i].objname} && failed == old(failed)
      ensures !(ok && jobs[i].exitcode == 0) ==>
          failed == old(failed) + multiset{jobs[i].objname} && compiled == old(compiled)
    {
      if !ok || jobs[i].exitcode != 0 { Fail(jobs[i].objname, work); } else { Compiled(jobs[i].objname, work); }
    }

    /** `begin` in a free slot. */
    method Begin(i: nat, objname: Object, pid: int)
      requires i < jobs.Length && pid != 0 && jobs[i].pid == 0
      requires Accounts(InWork(jobs[..]) + multiset{objname}) == true
      modifies jobs
      ensures Valid() == true && jobs[..] == old(jobs[..])[i := Job(objname, pid, 0)]
    {
      Entered(jobs[..], i, Job(objname, pid, 0));
      jobs[i] := Job(objname, pid, 0);
    }

    /** A slot whose child has ended, as a poll or a wait has shown, is accounted
        for; `extra` is what has been given but is not in work yet. */
    method Reap(i: nat, ok: bool, ghost js: seq<Job>, ghost extra: multiset<Object>)
      requires i < jobs.Length == |js| && js[i].pid != 0 && jobs[i].pid == 0 && jobs[i].objname == js[i].objname
      requires jobs[..] == js[i := jobs[i]] && Accounts(InWork(js) + extra) == true
      modifies `nfailed, `ncompiled, `linklist, `failed, `compiled
      ensures Accounts(InWork(jobs[..]) + extra) == true
      ensures Judged(js[i], ok && jobs[i].exitcode == 0, old(compiled), old(failed), compiled, failed) == true
    {
      FreedIs(js, i, jobs[i], extra);
      ghost var js', work := jobs[..], InWork(jobs[..]) + extra;
      Settle(i, ok, work);
      JudgedIs(js[i], ok && jobs[i].exitcode == 0, old(compiled), old(failed), compiled, failed);
      assert jobs[..] == js';
    }

    /** The slot of a job that has ended takes the next one. */
    method Replace(i: nat, ok: bool, objname: Object, pid: int, ghost js: seq<Job>)
      requires i < jobs.Length == |js| && js[i].pid != 0 && jobs[i].pid == 0 && jobs[i].objname == js[i].objname
      requires jobs[..] == js[i := jobs[i]] && Accounts(InWork(js) + multiset{objname}) == true && pid != 0
      modifies `nfailed, `ncompiled, `linklist, `failed, `compiled, jobs
      ensures Valid() == true && jobs[..] == js[i := Job(objname, pid, 0)]
      ensures Judged(js[i], ok && old(jobs[i].exitcode) == 0, old(compiled), old(failed), compiled, failed) == true
    {
      Reap(i, ok, js, multiset{objname});
      SetTwice(js, i, jobs[i], Job(objname, pid, 0));
      Begin(i, objname, pid);
    }

    /** `add_compile_job`: the first slot that is free, or whose child has ended,
        takes the job; with all children running, one is waited for.  The object
        that was in the slot is compiled or failed, by its exit code. */
    method AddCompileJob(objname: Object, polls: seq<Poll>, r: nat, w: Wait, pid: int) returns (i: nat)
      requires jobs.Length > 0 && |polls| == jobs.Length && pid != 0
      requires Accounts(InWork(jobs[..]) + multiset{objname}) == true
      modifies `nfailed, `ncompiled, `linklist, `failed, `compiled, jobs
      ensures Valid() == true && i < jobs.Length && jobs[..] == old(jobs[..])[i := Job(objname, pid, 0)]
      ensures Chosen(old(jobs[..]), polls, r, i) == true
      ensures Judged(old(jobs[..])[i], Succeeds(polls[i], w), old(compiled), old(failed), compiled, failed) == true
    {
      ghost var js := jobs[..];
      i := 0;
      while i < jobs.Length
        invariant i <= jobs.Length && jobs[..] == js && Accounts(InWork(js) + multiset{objname}) == true
        invariant compiled == old(compiled) && failed == old(failed)
        invariant forall k :: 0 <= k < i ==> !Vacant(js, polls, k)
      {
        if jobs[i].pid != 0 {
          var done := QueryComplete(i, polls[i]);
          if done {
            ChosenFree(js, polls, r, i);
            Replace(i, true, objname, pid, js);
            return;
          }
        } else {
          ChosenFree(js, polls, r, i);
          JudgedIdle(js[i], Succeeds(polls[i], w), compiled, failed);
          Begin(i, objname, pid);
          return;
        }
        i := i + 1;
      }
      i := r % jobs.Length;
      ChosenAny(js, polls, r);
      var ok := WaitFor(i, w);
      Replace(i, ok, objname, pid, js);
    }

    /** The child of one slot is waited for. */
    method Complete(i: nat, w: Wait)
      requires Valid() == true && i < jobs.Length && jobs[i].pid != 0
      modifies `nfailed, `ncompiled, `linklist, `failed, `compiled, jobs
      ensures Valid() == true && jobs[..] == old(jobs[..])[i := jobs[i]] && jobs[i].pid == 0
      ensures Judged(old(jobs[i]), Succeeds(Running, w), old(compiled), old(failed), compiled, failed) == true
    {
      ghost var js := jobs[..];
      NoExtra(InWork(js));
      var ok := WaitFor(i, w);
      Reap(i, ok, js, multiset{});
      NoExtra(InWork(jobs[..]));
    }

    method CompleteActive(i: nat, w: Wait)
      requires Valid() == true && i < jobs.Length
      modifies `nfailed, `ncompiled, `linklist, `failed, `compiled, jobs
      ensures Valid() == true && jobs[..] == old(jobs[..])[i := jobs[i]] && jobs[i].pid == 0
      ensures Judged(old(jobs[i]), Succeeds(Running, w), old(compiled), old(failed), compiled, failed) == true
    {
      JudgedIdle(jobs[i], Succeeds(Running, w), compiled, failed);
      if jobs[i].pid != 0 { Complete(i, w); }
    }

    /** One slot of the loop of `complete_jobs`. */
    method CompleteSlot(i: nat, waits: seq<Wait>, ghost js: seq<Job>, ghost c0: multiset<Object>,
        ghost f0: multiset<Object>)
      requires Valid() == true && i < jobs.Length == |waits| == |js| && Freed(js, jobs[..], i) == true
      requires AllJudged(js, waits, i, c0, f0, compiled, failed) == true
      modifies this, jobs
      ensures Valid() == true && Freed(js, jobs[..], i + 1) == true
      ensures AllJudged(js, waits, i + 1, c0, f0, compiled, failed) == true
      ensures given == old(given) && skipped == old(skipped)
    {
      ghost var js1, c1, f1 := jobs[..], compiled, failed;
      CompleteActive(i, waits[i]);
      FreedNext(js, js1, jobs[..], i);
      AllJudgedNext(js, waits, i, c0, f0, c1, f1, compiled, failed);
    }

    /** The loop of `complete_jobs`. */
    method CompleteAll(waits: seq<Wait>, ghost js: seq<Job>, ghost c0: multiset<Object>, ghost f0: multiset<Object>)
      requires Valid() == true && |waits| == jobs.Length == |js| && Freed(js, jobs[..], 0) == true
      requires AllJudged(js, waits, 0, c0, f0, compiled, failed) == true
      modifies this, jobs
      ensures Valid() == true && Freed(js, jobs[..], jobs.Length) == true
      ensures AllJudged(js, waits, jobs.Length, c0, f0, compiled, failed) == true
      ensures given == old(given) && skipped == old(skipped)
    {
      var i := 0;
      while i < jobs.Length
        invariant i <= jobs.Length && Valid() == true && Freed(js, jobs[..], i) == true
        invariant AllJudged(js, waits, i, c0, f0, compiled, failed) == true
        invariant given == old(given) && skipped == old(skipped)
      {
        CompleteSlot(i, waits, js, c0, f0);
        i := i + 1;
      }
    }

    /** `complete_jobs`: nothing is in work afterwards, and what was is compiled
        or failed, as the waits show. */
    method CompleteJobs(waits: seq<Wait>)
      requires Valid() == true && |waits| == jobs.Length
      modifies this, jobs
      ensures given == old(given) && skipped == old(skipped)
      ensures Valid() == true && InWork(jobs[..]) == multiset{}
      ensures compiled == old(compiled) + Awaited(old(jobs[..]), waits, true)
      ensures failed == old(failed) + Awaited(old(jobs[..]), waits, false)
    {
      ghost var js, c0, f0 := jobs[..], compiled, failed;
      AllJudgedNone(js, waits, c0, f0);
      CompleteAll(waits, js, c0, f0);
      AllJudgedAll(js, waits, c0, f0, compiled, failed);
      NoneInWork(jobs[..]);
    }

    /** An object that is up to date goes to the link list at once. */
    method Skip(o: Object, ghost work: multiset<Object>)
      requires Accounts(work) == true
      modifies `nprocessed, `nskipped, `linklist, `given, `skipped
      ensures Accounts(work) == true && given == old(given) + multiset{o} && skipped == old(skipped) + multiset{o}
    {
      SkipBalanced(given, linklist, skipped, compiled, failed, work, o);
      nprocessed := nprocessed + 1;
      given := given + multiset{o};
      nskipped := nskipped + 1;
      linklist := linklist + [o];
      skipped := skipped + multiset{o};
    }

    /** An object to be compiled is given, and not in work yet. */
    method Take(o: Object, ghost work: multiset<Object>)
      requires Accounts(work) == true
      modifies `nprocessed, `given
      ensures Accounts(work + multiset{o}) == true && given == old(given) + multiset{o}
    {
      TakeBalanced(given, linklist, skipped, compiled, failed, work, o);
      nprocessed := nprocessed + 1;
      given := given + multiset{o};
    }

    /** An object out of date is given to a slot. */
    method Submit(f: File)
      requires Valid() == true && |f.polls| == jobs.Length && f.pid != 0 && f.needsRebuild
      modifies this, jobs
      ensures Valid() == true && given == old(given) + multiset{f.objname} && skipped == old(skipped)
      ensures State() == Taken(old(State()), f)
    {
      ghost var js, c0, f0 := jobs[..], compiled, failed;
      Take(f.objname, InWork(jobs[..]));
      var i := AddCompileJob(f.objname, f.polls, f.r, f.w, f.pid);
      TakenIs(js, f, i, c0, f0, compiled, failed);
    }

    /** `do_compile`: an object that is up to date is only linked. */
    method DoCompile(f: File)
      requires Valid() == true && |f.polls| == jobs.Length && f.pid != 0
      modifies this, jobs
      ensures Valid() == true && given == old(given) + multiset{f.objname}
      ensures skipped == if f.needsRebuild then old(skipped) else old(skipped) + multiset{f.objname}
      ensures State() == Taken(old(State()), f)
    {
      if f.needsRebuild { Submit(f); } else { Skip(f.objname, InWork(jobs[..])); }
    }

    /** `link`: nothing is linked after a failure, nor when nothing was recompiled
        and the target is there and new; else everything that was processed is. */
    method Link(waits: seq<Wait>, targetExists: bool, older: bool) returns (l: Linking)
      requires Valid() == true && |waits| == jobs.Length
      modifies this, jobs
      ensures given == old(given) && skipped == old(skipped)
      ensures Valid() == true && InWork(jobs[..]) == multiset{} && given == skipped + compiled + failed
      ensures failed == old(failed) + Awaited(old(jobs[..]), waits, false)
      ensures l == Refused <==> failed != multiset{}
      ensures l == UpToDate <==> failed == multiset{} && compiled == multiset{} && targetExists && !older
      ensures l.Links? ==> l.objects == linklist && multiset(linklist) == given && |linklist| == nprocessed
    {
      CompleteJobs(waits);
      if nfailed != 0 { return Refused; }
      if |linklist| == nskipped && targetExists && !older { return UpToDate; }
      l := Links(linklist);
    }
  }

  // ---------------------------------------------------------------- whole builds

  function Given(files: seq<File>): multiset<Object> {
    if files == [] then multiset{}
    else Given(files[..|files| - 1]) + multiset{files[|files| - 1].objname}
  }

  function UpToDateOf(files: seq<File>): multiset<Object> {
    if files == [] then multiset{}
    else
      var f := files[|files| - 1];
      UpToDateOf(files[..|files| - 1]) + if f.needsRebuild then multiset{} else multiset{f.objname}
  }

  lemma {:induction false} RebuildsCount(files: seq<File>)
    ensures |UpToDateOf(files)| <= |Given(files)|
    ensures (forall f :: f in files ==> !f.needsRebuild) ==> UpToDateOf(files) == Given(files)
    ensures (exists f :: f in files && f.needsRebuild) ==> |UpToDateOf(files)| < |Given(files)|
  {
    if files != [] {
      var rest := files[..|files| - 1];
      RebuildsCount(rest);
      assert files == rest + [files[|files| - 1]];
    }
  }

  /** The accounts after the first `n` files. */
  ghost predicate Processed(files: seq<File>, n: nat, given: multiset<Object>, skipped: multiset<Object>)
    requires n <= |files|
  {
    given == Given(files[..n]) && skipped == UpToDateOf(files[..n])
  }

  /** The slots after some files. */
  function AllTaken(s: Slots, files: seq<File>): (s': Slots)
    requires |s.jobs| > 0 && forall f :: f in files ==> |f.polls| == |s.jobs|
    ensures |s'.jobs| == |s.jobs|
  {
    if files == [] then s else Taken(AllTaken(s, files[..|files| - 1]), files[|files| - 1])
  }

  lemma AllTakenNext(s: Slots, files: seq<File>, n: nat)
    requires |s.jobs| > 0 && (forall f :: f in files ==> |f.polls| == |s.jobs|) && n < |files|
    ensures AllTaken(s, files[..n + 1]) == Taken(AllTaken(s, files[..n]), files[n])
  {
    assert files[..n + 1][..n] == files[..n];
  }

  /** The objects whose child fails, while files are processed or at the end. */
  function FailedOf(nprocessors: nat, files: seq<File>, waits: seq<Wait>): multiset<Object>
    requires |waits| == nprocessors > 0 && forall f :: f in files ==> |f.polls| == nprocessors
  {
    var s := AllTaken(Idle(nprocessors), files);
    s.failed + Awaited(s.jobs, waits, false)
  }

  lemma ProcessedNext(files: seq<File>, n: nat, given: multiset<Object>, skipped: multiset<Object>)
    requires n < |files| && Processed(files, n, given, skipped)
    ensures Processed(files, n + 1, given + multiset{files[n].objname},
      if files[n].needsRebuild then skipped else skipped + multiset{files[n].objname}) == true
  {
    assert files[..n + 1][..n] == files[..n];
  }

  /** Nothing but what was skipped: then nothing was compiled and nothing failed. */
  lemma AllSkipped(files: seq<File>, given: multiset<Object>, skipped: multiset<Object>, compiled: multiset<Object>,
      failed: multiset<Object>)
    requires Processed(files, |files|, given, skipped) && given == skipped + compiled + failed
    ensures (forall f :: f in files ==> !f.needsRebuild) <==> compiled == multiset{} && failed == multiset{}
    ensures given == Given(files)
  {
    assert files[..|files|] == files;
    RebuildsCount(files);
    assert |skipped + compiled + failed| == |skipped| + |compiled| + |failed|;
    if compiled == multiset{} && failed == multiset{} { assert given == skipped; }
  }

  /** `do_compile` on each file. */
  method CompileAll(b: Build, files: seq<File>)
    requires b.Valid() == true && b.given == multiset{} && b.skipped == multiset{}
    requires forall f :: f in files ==> |f.polls| == b.jobs.Length && f.pid != 0
    modifies b, b.jobs
    ensures b.Valid() == true && Processed(files, |files|, b.given, b.skipped) == true
    ensures b.State() == AllTaken(old(b.State()), files)
  {
    ghost var s := b.State();
    var i := 0;
    while i < |files|
      invariant i <= |files| && b.Valid() == true && Processed(files, i, b.given, b.skipped) == true
      invariant b.State() == AllTaken(s, files[..i])
    {
      ProcessedNext(files, i, b.given, b.skipped);
      AllTakenNext(s, files, i);
      b.DoCompile(files[i]);
      i := i + 1;
    }
    assert files[..i] == files;
  }

  /** Any build, however its children end: what is linked is every file that was
      processed; linking is left out exactly when no file was out of date and the
      target is there and new, and refused exactly when some child failed. */
  method Run(nprocessors: nat, files: seq<File>, waits: seq<Wait>, targetExists: bool, older: bool)
    returns (l: Linking)
    requires nprocessors > 0 && |waits| == nprocessors
    requires forall f :: f in files ==> |f.polls| == nprocessors && f.pid != 0
    ensures l.Links? ==> multiset(l.objects) == Given(files)
    ensures l == UpToDate <==> (forall f :: f in files ==> !f.needsRebuild) && targetExists && !older
    ensures l == Refused <==> FailedOf(nprocessors, files, waits) != multiset{}
    ensures l == Refused ==> exists f :: f in files && f.needsRebuild
  {
    var b := new Build(nprocessors);
    CompileAll(b, files);
    l := b.Link(waits, targetExists, older);
    AllSkipped(files, b.given, b.skipped, b.compiled, b.failed);
  }
}
