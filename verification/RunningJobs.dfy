/**
 * The list of running jobs, one slot per backup name (shared/structs_scheduler.go:346-671), and the commands that change
 * it (scheduler/scheduler.go:162-257, 691-746, 823-866). Every method runs under the list's lock, so it is one step.
 */
module RunningJobs {
  import opened Common

  datatype JobType = BackupJob | RestoreJob

  datatype JobState = Running | Stopping

  const TWO_TO_64 := 0x1_0000_0000_0000_0000

  datatype Job = Job(kind: JobType, name: string, id: string, state: JobState, counters: map<string, nat>)

  /** An empty id stands for any. */
  predicate Matches(job: Job, name: string, id: string) {
    job.name == name && (id == "" || job.id == id)
  }

  predicate HasName(jobs: seq<Job>, name: string) {
    exists i | 0 <= i < |jobs| :: jobs[i].name == name
  }

  ghost predicate OnePerName(jobs: seq<Job>) {
    forall i, j | 0 <= i < j < |jobs| :: jobs[i].name != jobs[j].name
  }

  /** What `MarkStopped` makes of one job that it finds. */
  function Halted(job: Job, stopped: bool): seq<Job> {
    if stopped then [] else [job.(state := Stopping)]
  }

  /** The list that the loop of `MarkStopped` builds: jobs of that name with another id are left out as well. */
  function Rebuilt(jobs: seq<Job>, name: string, id: string, stopped: bool): seq<Job> {
    if |jobs| == 0 then []
    else
      var job := jobs[|jobs| - 1];
      Rebuilt(jobs[..|jobs| - 1], name, id, stopped) +
      (if job.name != name then [job] else if Matches(job, name, id) then Halted(job, stopped) else [])
  }

  /** `MarkStopped`: the new list, unless no job matches. */
  function Stop(jobs: seq<Job>, name: string, id: string, stopped: bool): Option<seq<Job>> {
    if exists i | 0 <= i < |jobs| :: Matches(jobs[i], name, id) then Some(Rebuilt(jobs, name, id, stopped)) else None
  }

  /** What it is meant to do: stop or remove the jobs that match and keep every other one in its place. */
  function Meant(jobs: seq<Job>, name: string, id: string, stopped: bool): seq<Job> {
    if |jobs| == 0 then []
    else
      var job := jobs[|jobs| - 1];
      Meant(jobs[..|jobs| - 1], name, id, stopped) + (if Matches(job, name, id) then Halted(job, stopped) else [job])
  }

  /** The loop keeps what it should exactly when no job of that name has another id. */
  lemma {:induction false} RebuiltIsMeant(jobs: seq<Job>, name: string, id: string, stopped: bool)
    requires forall i | 0 <= i < |jobs| && jobs[i].name == name :: Matches(jobs[i], name, id)
    ensures Rebuilt(jobs, name, id, stopped) == Meant(jobs, name, id, stopped)
  {
    if |jobs| > 0 {
      RebuiltIsMeant(jobs[..|jobs| - 1], name, id, stopped);
    }
  }

  lemma {:induction false} RebuiltIsShorter(jobs: seq<Job>, name: string, id: string, stopped: bool)
    ensures |Rebuilt(jobs, name, id, stopped)| <= |Meant(jobs, name, id, stopped)|
    ensures (exists i | 0 <= i < |jobs| :: jobs[i].name == name && !Matches(jobs[i], name, id)) ==>
              |Rebuilt(jobs, name, id, stopped)| < |Meant(jobs, name, id, stopped)|
  {
    if |jobs| > 0 {
      RebuiltIsShorter(jobs[..|jobs| - 1], name, id, stopped);
    }
  }

  /** `MarkStopped` does what is meant exactly when no job of that name has another id. */
  lemma {:induction false} StopIsMeantIff(jobs: seq<Job>, name: string, id: string, stopped: bool)
    requires Stop(jobs, name, id, stopped).Some?
    ensures Stop(jobs, name, id, stopped).value == Meant(jobs, name, id, stopped) <==>
            forall i | 0 <= i < |jobs| && jobs[i].name == name :: Matches(jobs[i], name, id)
  {
    if forall i | 0 <= i < |jobs| && jobs[i].name == name :: Matches(jobs[i], name, id) {
      RebuiltIsMeant(jobs, name, id, stopped);
    } else {
      RebuiltIsShorter(jobs, name, id, stopped);
    }
  }

  /** With one job per name, stopping a job touches that job alone. */
  lemma StopTouchesOne(jobs: seq<Job>, name: string, id: string, stopped: bool)
    requires OnePerName(jobs) && Stop(jobs, name, id, stopped).Some?
    ensures exists k | 0 <= k < |jobs| :: && Matches(jobs[k], name, id)
                                          && Stop(jobs, name, id, stopped).value == jobs[..k] + Halted(jobs[k], stopped) + jobs[k + 1..]
  {
    var k :| 0 <= k < |jobs| && Matches(jobs[k], name, id);
    RebuiltAround(jobs, name, id, stopped, k);
  }

  lemma {:induction false} RebuiltAround(jobs: seq<Job>, name: string, id: string, stopped: bool, k: nat)
    requires OnePerName(jobs) && k < |jobs| && Matches(jobs[k], name, id)
    ensures Rebuilt(jobs, name, id, stopped) == jobs[..k] + Halted(jobs[k], stopped) + jobs[k + 1..]
  {
    var init, job := jobs[..|jobs| - 1], jobs[|jobs| - 1];
    if k < |jobs| - 1 {
      RebuiltAround(init, name, id, stopped, k);
      var front := jobs[..k] + Halted(jobs[k], stopped);
      assert init[..k] == jobs[..k];
      LastOf(jobs, k + 1);
      assert Rebuilt(jobs, name, id, stopped) == front + init[k + 1..] + [job];
      assert front + init[k + 1..] + [job] == front + (init[k + 1..] + [job]);
    } else {
      RebuiltNone(init, name, id, stopped);
      assert jobs[..k] == init && jobs[k + 1..] == [];
    }
  }

  lemma LastOf(jobs: seq<Job>, k: nat)
    requires k < |jobs|
    ensures jobs[..|jobs| - 1][k..] + [jobs[|jobs| - 1]] == jobs[k..]
  {}

  lemma {:induction false} RebuiltNone(jobs: seq<Job>, name: string, id: string, stopped: bool)
    requires !HasName(jobs, name)
    ensures Rebuilt(jobs, name, id, stopped) == jobs
  {
    if |jobs| > 0 {
      var init := jobs[..|jobs| - 1];
      assert forall i | 0 <= i < |init| :: init[i] == jobs[i];
      RebuiltNone(init, name, id, stopped);
      assert jobs == init + [jobs[|jobs| - 1]];
    }
  }

  // ----- the list as it is changed in place ---------------------------------------------------------

  class JobsState {
    var running: seq<Job>

    constructor ()
      ensures running == []
    {
      running := [];
    }

    method IsRunning(name: string, id: string) returns (r: bool)
      ensures r <==> exists i | 0 <= i < |running| :: Matches(running[i], name, id)
    {
      for k := 0 to |running|
        invariant forall i | 0 <= i < k :: !Matches(running[i], name, id)
      {
        if Matches(running[k], name, id) {
          return true;
        }
      }
      return false;
    }

    method IsStopping(name: string, id: string) returns (r: bool)
      ensures r <==> exists i | 0 <= i < |running| :: Matches(running[i], name, id) && running[i].state == Stopping
    {
      for k := 0 to |running|
        invariant forall i | 0 <= i < k :: !(Matches(running[i], name, id) && running[i].state == Stopping)
      {
        if Matches(running[k], name, id) && running[k].state == Stopping {
          return true;
        }
      }
      return false;
    }

    /** `MarkRunning` and `MarkRestoreRunning`: they compete for the one slot of the name. */
    method MarkRunning(kind: JobType, name: string, id: string, counters: map<string, nat>) returns (ok: bool)
      modifies this
      ensures ok <==> !old(HasName(running, name))
      ensures running == old(running) + (if ok then [Job(kind, name, id, Running, counters)] else [])
      ensures old(OnePerName(running)) ==> OnePerName(running)
    {
      for k := 0 to |running|
        invariant forall i | 0 <= i < k :: running[i].name != name
        invariant running == old(running)
      {
        if running[k].name == name {
          return false;
        }
      }
      running := running + [Job(kind, name, id, Running, counters)];
      return true;
    }

    method MarkStopped(name: string, id: string, stopped: bool) returns (ok: bool)
      modifies this
      ensures ok == Stop(old(running), name, id, stopped).Some?
      ensures running == if ok then Stop(old(running), name, id, stopped).value else old(running)
    {
      var found := false;
      var updated := [];
      for k := 0 to |running|
        invariant found <==> exists i | 0 <= i < k :: Matches(running[i], name, id)
        invariant updated == Rebuilt(running[..k], name, id, stopped)
        invariant running == old(running)
      {
        assert running[..k + 1][..k] == running[..k];
        var job := running[k];
        if job.name != name {
          updated := updated + [job];
        } else if Matches(job, name, id) {
          found := true;
          if !stopped {
            updated := updated + [job.(state := Stopping)];
          }
        }
      }
      assert running[..|running|] == running;
      if found {
        running := updated;
      }
      return found;
    }

    /** `IncrementCounter`: the first job of the name gets the count; a missing counter starts from zero. */
    method IncrementCounter(name: string, counter: string)
      modifies this
      ensures running == Adjusted(old(running), name, "", counter, true, 0)
    {
      for k := 0 to |running|
        invariant running == old(running)
        invariant forall i | 0 <= i < k :: running[i].name != name
      {
        if running[k].name == name {
          AdjustedAt(running, name, "", counter, true, 0, k);
          running := running[k := Adjust(running[k], counter, true, 0)];
          return;
        }
      }
      AdjustedNone(running, name, "", counter, true, 0);
    }

    /** `SeedCounter`: overwrites a counter that exists. */
    method SeedCounter(name: string, id: string, counter: string, value: nat)
      modifies this
      ensures running == Adjusted(old(running), name, id, counter, false, value)
    {
      for k := 0 to |running|
        invariant running == old(running)
        invariant forall i | 0 <= i < k :: !Matches(running[i], name, id)
      {
        if Matches(running[k], name, id) {
          AdjustedAt(running, name, id, counter, false, value, k);
          running := running[k := Adjust(running[k], counter, false, value)];
          return;
        }
      }
      AdjustedNone(running, name, id, counter, false, value);
    }
  }

  /** One job's counter, counted up or overwritten. */
  function Adjust(job: Job, counter: string, up: bool, value: nat): Job {
    var was := if counter in job.counters then job.counters[counter] else 0;
    if up then job.(counters := job.counters[counter := (was + 1) % TWO_TO_64])
    else if counter in job.counters then job.(counters := job.counters[counter := value])
    else job
  }

  /** The first job that matches is adjusted. */
  function Adjusted(jobs: seq<Job>, name: string, id: string, counter: string, up: bool, value: nat): seq<Job> {
    if |jobs| == 0 then []
    else if Matches(jobs[0], name, id) then [Adjust(jobs[0], counter, up, value)] + jobs[1..]
    else [jobs[0]] + Adjusted(jobs[1..], name, id, counter, up, value)
  }

  lemma {:induction false} AdjustedAt(jobs: seq<Job>, name: string, id: string, counter: string, up: bool, value: nat, k: nat)
    requires k < |jobs| && Matches(jobs[k], name, id) && forall i | 0 <= i < k :: !Matches(jobs[i], name, id)
    ensures Adjusted(jobs, name, id, counter, up, value) == jobs[k := Adjust(jobs[k], counter, up, value)]
    decreases k
  {
    if k > 0 {
      AdjustedAt(jobs[1..], name, id, counter, up, value, k - 1);
    }
  }

  lemma {:induction false} AdjustedNone(jobs: seq<Job>, name: string, id: string, counter: string, up: bool, value: nat)
    requires forall i | 0 <= i < |jobs| :: !Matches(jobs[i], name, id)
    ensures Adjusted(jobs, name, id, counter, up, value) == jobs
  {
    if |jobs| > 0 {
      AdjustedNone(jobs[1..], name, id, counter, up, value);
    }
  }

  // ----- commands -----------------------------------------------------------------------------------

  /** What the scheduler and the jobs do to the list. */
  datatype Command =
    | Start(kind: JobType, name: string, newId: string, counters: map<string, nat>)
    | StopJob(name: string, id: string)
    | ResumeRestore(name: string, id: string, target: string, counters: map<string, nat>)
    | Finish(name: string, id: string)
    | Tick(name: string, counter: string)
    | Seed(name: string, id: string, counter: string, value: nat)

  function Marked(jobs: seq<Job>, job: Job): seq<Job> {
    if HasName(jobs, job.name) then jobs else jobs + [job]
  }

  /** `processBackupCommand`, `processRestoreCommand`, and what a job does itself until its cleanup removes it. */
  function Process(jobs: seq<Job>, c: Command): seq<Job> {
    match c
    case Start(kind, name, newId, counters) => Marked(jobs, Job(kind, name, newId, Running, counters))
    case StopJob(name, id) =>
      if exists i | 0 <= i < |jobs| :: Matches(jobs[i], name, id) && jobs[i].state == Stopping then jobs
      else
        var r := Stop(jobs, name, id, false);
        if r.Some? then r.value else jobs
    case ResumeRestore(name, id, target, counters) =>
      if id == "" || target == "" || HasName(jobs, name) then jobs
      else Marked(jobs, Job(RestoreJob, name, id, Running, counters))
    case Finish(name, id) =>
      var r := Stop(jobs, name, id, true);
      if r.Some? then r.value else jobs
    case Tick(name, counter) => Adjusted(jobs, name, "", counter, true, 0)
    case Seed(name, id, counter, value) => Adjusted(jobs, name, id, counter, false, value)
  }

  lemma {:induction false} AdjustedNames(jobs: seq<Job>, name: string, id: string, counter: string, up: bool, value: nat)
    ensures var jobs' := Adjusted(jobs, name, id, counter, up, value);
            && |jobs'| == |jobs|
            && forall i | 0 <= i < |jobs| :: jobs'[i] == jobs[i].(counters := jobs'[i].counters) &&
                                             (jobs'[i] != jobs[i] ==> Matches(jobs[i], name, id))
  {
    if |jobs| > 0 && !Matches(jobs[0], name, id) {
      AdjustedNames(jobs[1..], name, id, counter, up, value);
    }
  }

  lemma StopKeepsOnePerName(jobs: seq<Job>, name: string, id: string, stopped: bool)
    requires OnePerName(jobs) && Stop(jobs, name, id, stopped).Some?
    ensures OnePerName(Stop(jobs, name, id, stopped).value)
  {
    StopTouchesOne(jobs, name, id, stopped);
  }

  lemma ProcessKeepsOnePerName(jobs: seq<Job>, c: Command)
    requires OnePerName(jobs)
    ensures OnePerName(Process(jobs, c))
  {
    match c
    case StopJob(name, id) =>
      if Stop(jobs, name, id, false).Some? {
        StopKeepsOnePerName(jobs, name, id, false);
      }
    case Finish(name, id) =>
      if Stop(jobs, name, id, true).Some? {
        StopKeepsOnePerName(jobs, name, id, true);
      }
    case Tick(name, counter) => AdjustedNames(jobs, name, "", counter, true, 0);
    case Seed(name, id, counter, value) => AdjustedNames(jobs, name, id, counter, false, value);
    case _ =>
  }

  function ProcessAll(jobs: seq<Job>, cs: seq<Command>): seq<Job>
    decreases |cs|
  {
    if |cs| == 0 then jobs else ProcessAll(Process(jobs, cs[0]), cs[1..])
  }

  /** One slot per name: no sequence of commands ever makes two jobs of one name run. */
  lemma {:induction false} OneSlotPerName(jobs: seq<Job>, cs: seq<Command>)
    requires OnePerName(jobs)
    ensures OnePerName(ProcessAll(jobs, cs))
    decreases |cs|
  {
    if |cs| > 0 {
      ProcessKeepsOnePerName(jobs, cs[0]);
      OneSlotPerName(Process(jobs, cs[0]), cs[1..]);
    }
  }

  /**
   * So, whatever has happened since the daemon started, the next stop of a job changes or removes that job only and
   * leaves every other job as it is, in its place.
   */
  lemma {:induction false} StopAfterAnyCommands(cs: seq<Command>, name: string, id: string, stopped: bool)
    ensures var jobs := ProcessAll([], cs);
            var r := Stop(jobs, name, id, stopped);
            r.Some? ==> exists k | 0 <= k < |jobs| ::
              Matches(jobs[k], name, id) && r.value == jobs[..k] + Halted(jobs[k], stopped) + jobs[k + 1..]
  {
    OneSlotPerName([], cs);
    var jobs := ProcessAll([], cs);
    if Stop(jobs, name, id, stopped).Some? {
      StopTouchesOne(jobs, name, id, stopped);
    }
  }

  // ----- what a command comes to ----------------------------------------------------------------------

  /** The job that a command with this name and id is about: the first that matches. */
  ghost predicate Meets(jobs: seq<Job>, name: string, id: string, k: nat) {
    k < |jobs| && Matches(jobs[k], name, id) && forall i | 0 <= i < k :: !Matches(jobs[i], name, id)
  }

  /** A stop leaves the job in its place, as stopping; a finish removes it, and its name is free. */
  lemma {:induction false} StopAndFinish(jobs: seq<Job>, name: string, id: string, k: nat)
    requires OnePerName(jobs) && Meets(jobs, name, id, k)
    ensures Stop(jobs, name, id, false) == Some(jobs[k := Job(jobs[k].kind, name, jobs[k].id, Stopping, jobs[k].counters)])
    ensures Stop(jobs, name, id, true) == Some(jobs[..k] + jobs[k + 1..]) && !HasName(jobs[..k] + jobs[k + 1..], name)
  {
    RebuiltAround(jobs, name, id, false, k);
    RebuiltAround(jobs, name, id, true, k);
    assert jobs[..k] + [jobs[k].(state := Stopping)] + jobs[k + 1..] == jobs[k := jobs[k].(state := Stopping)];
    assert jobs[..k] + [] + jobs[k + 1..] == jobs[..k] + jobs[k + 1..];
  }

  /** A counter that is counted up is one more in 64 bits, from zero if it was missing; all else is as it was. */
  lemma {:induction false} TickCounts(jobs: seq<Job>, name: string, counter: string, k: nat)
    requires Meets(jobs, name, "", k)
    ensures var jobs', job := Process(jobs, Tick(name, counter)), jobs[k];
            && |jobs'| == |jobs| && (forall i | 0 <= i < |jobs| && i != k :: jobs'[i] == jobs[i])
            && jobs'[k] == job.(counters := jobs'[k].counters) && jobs'[k].counters.Keys == job.counters.Keys + {counter}
            && (forall x | x in job.counters && x != counter :: jobs'[k].counters[x] == job.counters[x])
            && var was: nat := if counter in job.counters then job.counters[counter] else 0;
               jobs'[k].counters[counter] == (was + 1) % 0x1_0000_0000_0000_0000
  {
    AdjustedAt(jobs, name, "", counter, true, 0, k);
  }

  /** Seeding sets a counter that the job has, and does nothing for one that it has not. */
  lemma {:induction false} SeedSets(jobs: seq<Job>, name: string, id: string, counter: string, value: nat, k: nat)
    requires Meets(jobs, name, id, k)
    ensures Process(jobs, Seed(name, id, counter, value)) ==
            if counter in jobs[k].counters then jobs[k := jobs[k].(counters := jobs[k].counters[counter := value])] else jobs
  {
    AdjustedAt(jobs, name, id, counter, false, value, k);
  }

  /** Whatever has happened before, a job that is finished can be started again, and one that is running cannot. */
  lemma {:induction false} FinishThenStart(cs: seq<Command>, name: string, id: string, kind: JobType, newId: string, counters: map<string, nat>, k: nat)
    requires Meets(ProcessAll([], cs), name, id, k)
    ensures var jobs, job := ProcessAll([], cs), Job(kind, name, newId, Running, counters);
            && Process(jobs, Start(kind, name, newId, counters)) == jobs
            && Process(jobs, StopJob(name, id)) == jobs[k := jobs[k].(state := Stopping)]
            && Process(Process(jobs, Finish(name, id)), Start(kind, name, newId, counters)) == jobs[..k] + jobs[k + 1..] + [job]
            && (newId != "" ==> forall target | target != "" ::
                  Process(Process(jobs, Finish(name, id)), ResumeRestore(name, newId, target, counters)) ==
                  jobs[..k] + jobs[k + 1..] + [job.(kind := RestoreJob)])
  {
    OneSlotPerName([], cs);
    var jobs := ProcessAll([], cs);
    StopAndFinish(jobs, name, id, k);
    if j :| 0 <= j < |jobs| && Matches(jobs[j], name, id) && jobs[j].state == Stopping {
      assert j == k && jobs[k := jobs[k].(state := Stopping)] == jobs;
    }
  }

  /** A command about a job that is not there changes nothing. */
  lemma {:induction false} NoSuchJob(jobs: seq<Job>, name: string, id: string, counter: string, value: nat)
    requires forall i | 0 <= i < |jobs| :: !Matches(jobs[i], name, id)
    ensures Process(jobs, StopJob(name, id)) == jobs && Process(jobs, Finish(name, id)) == jobs
    ensures Process(jobs, Seed(name, id, counter, value)) == jobs && (id == "" ==> Process(jobs, Tick(name, counter)) == jobs)
  {
    AdjustedNone(jobs, name, id, counter, false, value);
    if id == "" {
      AdjustedNone(jobs, name, id, counter, true, 0);
    }
  }

  /** A resume without an id or a target, and any start of a name that is in use, changes nothing. */
  lemma StartRefused(jobs: seq<Job>, kind: JobType, name: string, id: string, target: string, counters: map<string, nat>)
    ensures id == "" || target == "" || HasName(jobs, name) ==> Process(jobs, ResumeRestore(name, id, target, counters)) == jobs
    ensures HasName(jobs, name) ==> Process(jobs, Start(kind, name, id, counters)) == jobs
  {}
}
