/**
 * The background job table: a map from job id to the job's process id, the
 * first word of its command and a running flag, and a counter holding the
 * next id to hand out (it starts at 1 and only ever grows).
 *
 * `Table` is the value of the two globals; `Launched`, `Foregrounded` and
 * `Backgrounded` say what each job-control operation makes of it, and the
 * class `JobTable` holds the same state as mutable fields whose methods are
 * proved to perform exactly those updates.
 */
module Jobs {
  import opened Wrappers

  /** One background job. */
  datatype Job = Job(pid: int, command: string, running: bool)

  /** The job map together with the next id to issue. */
  datatype Table = Table(jobs: map<int, Job>, counter: int)

  /** Ids are handed out from 1 upwards, and every id in use was already issued. */
  predicate Valid(t: Table) {
    t.counter >= 1 && forall id :: id in t.jobs ==> 1 <= id < t.counter
  }

  /** No operation of the shell ever marks a job as stopped. */
  predicate AllRunning(t: Table) {
    forall id :: id in t.jobs ==> t.jobs[id].running
  }

  /** The table at start-up: no jobs, next id 1. */
  const Initial := Table(map[], 1)

  /** A `fork`ed background command is stored under the current counter, which then advances. */
  function Launched(t: Table, pid: int, command: string): Table {
    Table(t.jobs[t.counter := Job(pid, command, true)], t.counter + 1)
  }

  /** `fg`: a known job is waited for and removed, whether or not `SIGCONT` reached it. */
  function Foregrounded(t: Table, id: int): Table {
    if id in t.jobs then t.(jobs := t.jobs - {id}) else t
  }

  /** `bg`: a known job whose `SIGCONT` succeeded is marked running; otherwise nothing changes. */
  function Backgrounded(t: Table, id: int, continued: bool): Table {
    if id in t.jobs && continued then t.(jobs := t.jobs[id := t.jobs[id].(running := true)]) else t
  }

  lemma InitialIsValid()
    ensures Valid(Initial) && AllRunning(Initial) && |Initial.jobs| == 0
  {
  }

  /** A launch uses an id that is free and larger than every id in use, and touches no other job. */
  lemma LaunchedUsesFreshId(t: Table, pid: int, command: string)
    requires Valid(t)
    ensures var u := Launched(t, pid, command);
      && t.counter !in t.jobs
      && (forall id :: id in t.jobs ==> id < t.counter)
      && u.jobs.Keys == t.jobs.Keys + {t.counter}
      && u.jobs[t.counter] == Job(pid, command, true)
      && (forall id :: id in t.jobs ==> u.jobs[id] == t.jobs[id])
      && u.counter == t.counter + 1
      && Valid(u)
      && (AllRunning(t) ==> AllRunning(u))
  {
  }

  /** `fg` on a known id removes exactly that job; on an unknown id it changes nothing. */
  lemma ForegroundedRemovesOnly(t: Table, id: int)
    requires Valid(t)
    ensures var u := Foregrounded(t, id);
      && u.jobs.Keys == t.jobs.Keys - {id}
      && (forall j :: j in u.jobs ==> u.jobs[j] == t.jobs[j])
      && u.counter == t.counter
      && (id !in t.jobs ==> u == t)
      && Valid(u)
      && (AllRunning(t) ==> AllRunning(u))
  {
  }

  /** `bg` keeps the set of jobs and can only set the running flag of the job it names. */
  lemma BackgroundedKeepsJobs(t: Table, id: int, continued: bool)
    requires Valid(t)
    ensures var u := Backgrounded(t, id, continued);
      && u.jobs.Keys == t.jobs.Keys
      && u.counter == t.counter
      && (forall j :: j in t.jobs && j != id ==> u.jobs[j] == t.jobs[j])
      && (id in t.jobs ==> u.jobs[id].pid == t.jobs[id].pid && u.jobs[id].command == t.jobs[id].command)
      && (id in t.jobs && continued ==> u.jobs[id].running)
      && (!continued || id !in t.jobs ==> u == t)
      && Valid(u)
      && (AllRunning(t) ==> AllRunning(u))
  {
  }

  /** Since every job is always running, `bg` never changes the table. */
  lemma BackgroundedIsNoOp(t: Table, id: int, continued: bool)
    requires AllRunning(t)
    ensures Backgrounded(t, id, continued) == t
  {
    if id in t.jobs && continued {
      assert t.jobs[id].(running := true) == t.jobs[id];
      assert t.jobs[id := t.jobs[id]] == t.jobs;
    }
  }

  /** A job-control call as it reaches the table. */
  datatype JobOp =
    | LaunchOp(pid: int, command: string)
    | ForegroundOp(id: int)
    | BackgroundOp(id: int, continued: bool)

  function Apply(t: Table, op: JobOp): Table {
    match op
    case LaunchOp(pid, command) => Launched(t, pid, command)
    case ForegroundOp(id) => Foregrounded(t, id)
    case BackgroundOp(id, continued) => Backgrounded(t, id, continued)
  }

  function ApplyAll(t: Table, ops: seq<JobOp>): Table
    decreases |ops|
  {
    if |ops| == 0 then t else ApplyAll(Apply(t, ops[0]), ops[1..])
  }

  /** The ids that the launches in `ops` are stored under, in order. */
  function IssuedIds(t: Table, ops: seq<JobOp>): seq<int>
    decreases |ops|
  {
    if |ops| == 0 then []
    else if ops[0].LaunchOp? then [t.counter] + IssuedIds(Apply(t, ops[0]), ops[1..])
    else IssuedIds(Apply(t, ops[0]), ops[1..])
  }

  /**
   * Job ids are never reused: along any run of job-control calls the ids
   * issued strictly increase, start at or above the counter (so clash with
   * no job already in the table) and stay below the final counter; the
   * table stays valid and every job stays running.
   */
  lemma {:induction false} IdsNeverReused(t: Table, ops: seq<JobOp>)
    requires Valid(t) && AllRunning(t)
    ensures forall i, j :: 0 <= i < j < |IssuedIds(t, ops)| ==> IssuedIds(t, ops)[i] < IssuedIds(t, ops)[j]
    ensures forall i :: 0 <= i < |IssuedIds(t, ops)| ==> t.counter <= IssuedIds(t, ops)[i] < ApplyAll(t, ops).counter
    ensures forall i :: 0 <= i < |IssuedIds(t, ops)| ==> IssuedIds(t, ops)[i] !in t.jobs
    ensures t.counter <= ApplyAll(t, ops).counter
    ensures Valid(ApplyAll(t, ops)) && AllRunning(ApplyAll(t, ops))
    decreases |ops|
  {
    if |ops| > 0 {
      var u := Apply(t, ops[0]);
      ApplyKeepsValid(t, ops[0]);
      IdsNeverReused(u, ops[1..]);
      var rest := IssuedIds(u, ops[1..]);
      assert ApplyAll(t, ops) == ApplyAll(u, ops[1..]);
      if ops[0].LaunchOp? {
        var ids := [t.counter] + rest;
        assert IssuedIds(t, ops) == ids;
        forall i | 0 < i < |ids|
          ensures ids[i] == rest[i - 1]
        {
        }
      } else {
        assert IssuedIds(t, ops) == rest;
      }
    }
  }

  /** One job-control call keeps the table valid and all-running, and advances the counter exactly on a launch. */
  lemma ApplyKeepsValid(t: Table, op: JobOp)
    requires Valid(t) && AllRunning(t)
    ensures Valid(Apply(t, op)) && AllRunning(Apply(t, op))
    ensures Apply(t, op).counter == if op.LaunchOp? then t.counter + 1 else t.counter
  {
    match op {
      case LaunchOp(pid, command) => LaunchedUsesFreshId(t, pid, command);
      case ForegroundOp(id) => ForegroundedRemovesOnly(t, id);
      case BackgroundOp(id, continued) => BackgroundedKeepsJobs(t, id, continued);
    }
  }

  /** `k` is the smallest id in `s`. */
  predicate IsMin(s: set<int>, k: int) {
    k in s && forall j :: j in s ==> k <= j
  }

  /** Every non-empty set of ids has a smallest one. */
  lemma {:induction false} HasMinimum(s: set<int>)
    requires |s| > 0
    ensures exists k :: IsMin(s, k)
    decreases |s|
  {
    if forall y :: y !in s {
      assert false;
    }
    var x :| x in s;
    var rest := s - {x};
    if |rest| == 0 {
      assert forall j :: j in s ==> j == x || j in rest;
      assert IsMin(s, x);
    } else {
      HasMinimum(rest);
      var k :| IsMin(rest, k);
      assert forall j :: j in s ==> j == x || j in rest;
      if x < k {
        assert IsMin(s, x);
      } else {
        assert IsMin(s, k);
      }
    }
  }

  /** The two globals `jobs` and `jobCounter`, updated in place by the job-control commands. */
  class JobTable {
    var jobs: map<int, Job>
    var jobCounter: int

    function State(): Table
      reads this
    {
      Table(jobs, jobCounter)
    }

    ghost predicate Invariant()
      reads this
    {
      Valid(State()) && AllRunning(State())
    }

    constructor ()
      ensures State() == Initial
      ensures Invariant()
    {
      jobs := map[];
      jobCounter := 1;
    }

    /** Lines 300-304: store the background child under `jobCounter`, then advance it. */
    method AddBackground(pid: int, command: string) returns (id: int)
      requires Invariant()
      modifies this
      ensures id == old(jobCounter) && id !in old(jobs)
      ensures forall j :: j in old(jobs) ==> j < id
      ensures State() == Launched(old(State()), pid, command)
      ensures Invariant()
    {
      LaunchedUsesFreshId(State(), pid, command);
      id := jobCounter;
      jobs := jobs[jobCounter := Job(pid, command, true)];
      jobCounter := jobCounter + 1;
    }

    /**
     * `bringToForeground`: an unknown id changes nothing; a known job gets
     * `SIGCONT` (whose failure, `continued == false`, is only reported), is
     * waited for, and is erased.  The results are the pid waited for and
     * whether a `kill(SIGCONT)` failure was reported.
     */
    method BringToForeground(id: int, continued: bool) returns (waited: Option<int>, signalFailed: bool)
      requires Invariant()
      modifies this
      ensures waited.Some? <==> id in old(jobs)
      ensures waited.Some? ==> waited.value == old(jobs)[id].pid
      ensures signalFailed <==> id in old(jobs) && !continued
      ensures State() == Foregrounded(old(State()), id)
      ensures Invariant()
    {
      ForegroundedRemovesOnly(State(), id);
      if id !in jobs {
        return None, false;
      }
      var pid := jobs[id].pid;
      signalFailed := !continued;
      waited := Some(pid);
      jobs := jobs - {id};
    }

    /**
     * `sendToBackground`: an unknown id, or a failed `SIGCONT`, changes
     * nothing; otherwise the job is marked running.
     */
    method SendToBackground(id: int, continued: bool) returns (r: BackgroundResult)
      requires Invariant()
      modifies this
      ensures r == (if id !in old(jobs) then NotFound
                    else if !continued then SignalFailed(old(jobs)[id].pid)
                    else Resumed(old(jobs)[id].pid))
      ensures State() == Backgrounded(old(State()), id, continued)
      ensures Invariant()
    {
      BackgroundedKeepsJobs(State(), id, continued);
      if id !in jobs {
        return NotFound;
      }
      var pid := jobs[id].pid;
      if !continued {
        return SignalFailed(pid);
      }
      jobs := jobs[id := jobs[id].(running := true)];
      return Resumed(pid);
    }

    /**
     * `printJobs`: walks the map in `std::map` order, that is by picking
     * the smallest remaining id each time.
     */
    method List() returns (entries: seq<(int, Job)>)
      ensures entries == Listing(jobs)
    {
      var rest := jobs.Keys;
      ghost var ids: seq<int> := [];
      entries := [];
      while |rest| > 0
        invariant rest <= jobs.Keys
        invariant forall i :: 0 <= i < |ids| ==> ids[i] in jobs
        invariant ids + SortedIds(rest) == SortedIds(jobs.Keys)
        invariant entries == Entries(jobs, ids)
        decreases |rest|
      {
        HasMinimum(rest);
        var k :| IsMin(rest, k);
        SortedIdsUnfold(rest, k);
        EntriesSnoc(jobs, ids, k);
        entries := entries + [(k, jobs[k])];
        ids := ids + [k];
        rest := rest - {k};
      }
    }
  }

  /** The smallest id is unique. */
  lemma MinIsUnique(s: set<int>, a: int, b: int)
    requires IsMin(s, a) && IsMin(s, b)
    ensures a == b
  {
  }

  /** The ids of `s` in ascending order: the smallest, then the order of the rest. */
  ghost function SortedIds(s: set<int>): seq<int>
    decreases |s|
  {
    if |s| == 0 then []
    else
      HasMinimum(s);
      var k :| IsMin(s, k);
      [k] + SortedIds(s - {k})
  }

  lemma SortedIdsUnfold(s: set<int>, k: int)
    requires IsMin(s, k)
    ensures SortedIds(s) == [k] + SortedIds(s - {k})
  {
    HasMinimum(s);
    var j :| IsMin(s, j);
    MinIsUnique(s, j, k);
  }

  /** `SortedIds` lists every id of the set once, in strictly ascending order. */
  lemma {:induction false} SortedIdsSorted(s: set<int>)
    ensures |SortedIds(s)| == |s|
    ensures forall i :: 0 <= i < |SortedIds(s)| ==> SortedIds(s)[i] in s
    ensures forall i, j :: 0 <= i < j < |SortedIds(s)| ==> SortedIds(s)[i] < SortedIds(s)[j]
    ensures forall k :: k in s ==> k in SortedIds(s)
    decreases |s|
  {
    if |s| > 0 {
      HasMinimum(s);
      var k :| IsMin(s, k);
      SortedIdsUnfold(s, k);
      SortedIdsSorted(s - {k});
      var r := SortedIds(s - {k});
      assert SortedIds(s) == [k] + r;
      forall i | 0 < i < |SortedIds(s)|
        ensures SortedIds(s)[i] == r[i - 1]
      {
      }
    }
  }

  /** The entries of `m` for the ids `ids`, in that order. */
  function Entries(m: map<int, Job>, ids: seq<int>): (r: seq<(int, Job)>)
    requires forall i :: 0 <= i < |ids| ==> ids[i] in m
    ensures |r| == |ids|
    ensures forall i :: 0 <= i < |r| ==> r[i] == (ids[i], m[ids[i]])
  {
    if ids == [] then [] else [(ids[0], m[ids[0]])] + Entries(m, ids[1..])
  }

  lemma EntriesSnoc(m: map<int, Job>, ids: seq<int>, k: int)
    requires forall i :: 0 <= i < |ids| ==> ids[i] in m
    requires k in m
    ensures Entries(m, ids + [k]) == Entries(m, ids) + [(k, m[k])]
  {
  }

  /** What `jobs` prints: every entry of the table, by ascending id. */
  ghost function Listing(m: map<int, Job>): seq<(int, Job)>
  {
    SortedIdsSorted(m.Keys);
    Entries(m, SortedIds(m.Keys))
  }

  /** The listing holds every job of the table exactly once, in strictly ascending id order. */
  lemma ListingIsSortedTable(m: map<int, Job>)
    ensures var l := Listing(m);
      && |l| == |m|
      && (forall i :: 0 <= i < |l| ==> l[i].0 in m && l[i].1 == m[l[i].0])
      && (forall i, j :: 0 <= i < j < |l| ==> l[i].0 < l[j].0)
      && (forall id :: id in m ==> exists i :: 0 <= i < |l| && l[i].0 == id)
  {
    SortedIdsSorted(m.Keys);
    var ids := SortedIds(m.Keys);
    var l := Entries(m, ids);
    assert Listing(m) == l;
    assert |m.Keys| == |m|;
    forall id | id in m
      ensures exists i :: 0 <= i < |l| && l[i].0 == id
    {
      var i :| 0 <= i < |ids| && ids[i] == id;
      assert l[i] == (ids[i], m[ids[i]]);
    }
  }

  /** `jobs` with an empty table prints only the "no background jobs" line. */
  lemma ListingEmptyIff(m: map<int, Job>)
    ensures Listing(m) == [] <==> |m| == 0
  {
    SortedIdsSorted(m.Keys);
  }

  /** What `bg` reports. */
  datatype BackgroundResult = NotFound | SignalFailed(pid: int) | Resumed(pid: int)
}
