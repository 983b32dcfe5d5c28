/** The parallel part of test.py: one main thread, a pool of worker threads, two FIFO queues, and an
    interrupt flag that may be raised at any moment. A step is one action of one thread. */
module WorkerPool {
  import opened Basics

  /** Jobs are numbered in the order in which they are put on the input queue; the break jobs come last. */
  datatype Job = Job(id: nat, isBreak: bool, isSkip: bool, returncode: int)

  /** Where a worker stands in its loop: waiting for a job, holding one just taken, about to run or skip one,
      about to put one on the output queue, or returned after the break job of that number. */
  datatype Worker = Waiting | Got(job: Job) | Cleared(job: Job) | Putting(job: Job) | Exited(id: nat)

  /** The jobs to dispatch, each to be skipped or not, and the number of processors. */
  datatype Config = Config(skip: seq<bool>, processors: nat) {
    function Jobs(): nat { |skip| }

    function Total(): nat { |skip| + processors }

    /** Job number `id` as the main thread puts it on the input queue. */
    function Dispatched(id: nat): Job {
      Job(id, id >= |skip|, id < |skip| && skip[id], 0)
    }
  }

  datatype Tally = Tally(passed: nat, failed: nat, crashed: nat, valgrind: nat, skipped: nat)

  /** The main thread has put `put` jobs, collected `collected`, and joined `joined` workers. */
  datatype State = State(input: seq<Job>, output: seq<Job>, workers: seq<Worker>, threadExit: bool,
                         put: nat, collected: seq<Job>, tally: Tally, joined: nat)

  function Init(c: Config): State {
    State([], [], seq(c.processors, _ => Waiting), false, 0, [], Tally(0, 0, 0, 0, 0), 0)
  }

  /** Main makes its next move, worker `w` makes its next move (a run ends with return code `rc`), or a signal
      arrives. */
  datatype Action = Main | Work(w: nat, rc: int) | Interrupt

  predicate Finished(c: Config, s: State) {
    s.put == c.Total() && |s.collected| == c.Jobs() && s.joined == c.processors
  }

  predicate Enabled(c: Config, s: State, a: Action) {
    match a
    case Main =>
      s.put < c.Total() ||
      (s.put == c.Total() && |s.collected| < c.Jobs() && s.output != []) ||
      (s.put == c.Total() && |s.collected| == c.Jobs() && s.joined < c.processors && s.joined < |s.workers|
       && s.workers[s.joined].Exited?)
    case Work(w, _) =>
      w < |s.workers| && !s.workers[w].Exited? && (s.workers[w].Waiting? ==> s.input != [])
    case Interrupt => !s.threadExit
  }

  function Next(c: Config, s: State, a: Action): State
    requires Enabled(c, s, a)
  {
    match a
    case Main => MainStep(c, s)
    case Work(w, rc) => WorkStep(s, w, rc)
    case Interrupt => s.(threadExit := true)
  }

  /** Dispatch all jobs, then one break job per worker, then collect as many results as jobs, then join all workers. */
  function MainStep(c: Config, s: State): State
    requires Enabled(c, s, Main)
  {
    if s.put < c.Total() then s.(input := s.input + [c.Dispatched(s.put)], put := s.put + 1)
    else if |s.collected| < c.Jobs() then
      s.(output := s.output[1..], collected := s.collected + [s.output[0]], tally := Count(s.tally, s.output[0]))
    else s.(joined := s.joined + 1)
  }

  function Count(t: Tally, job: Job): Tally {
    if job.isBreak then t
    else if job.isSkip then t.(skipped := t.skipped + 1)
    else if job.returncode == 0 then t.(passed := t.passed + 1)
    else if job.returncode == 1 then t.(failed := t.failed + 1)
    else if job.returncode == 2 then t.(valgrind := t.valgrind + 1)
    else t.(crashed := t.crashed + 1)
  }

  /** The loop of worker_thread.run, one move at a time. */
  function WorkStep(s: State, w: nat, rc: int): State
    requires w < |s.workers| && !s.workers[w].Exited? && (s.workers[w].Waiting? ==> s.input != [])
  {
    match s.workers[w]
    case Waiting => s.(input := s.input[1..], workers := s.workers[w := Got(s.input[0])])
    case Got(job) =>
      s.(workers := s.workers[w :=
        if job.isBreak then Exited(job.id)
        else if s.threadExit then Putting(job.(isBreak := true))
        else Cleared(job)])
    case Cleared(job) => s.(workers := s.workers[w := Putting(if job.isSkip then job else job.(returncode := rc))])
    case Putting(job) => s.(output := s.output + [job], workers := s.workers[w := Waiting])
  }

  /** The value that run_tests returns. */
  function ExitValue(c: Config, s: State): int {
    if s.tally.passed + s.tally.skipped == c.Jobs() then 0 else 1
  }

  // ----- what every step keeps

  /** How often number `id` occurs among the jobs. */
  function Times(jobs: seq<Job>, id: nat): nat {
    if jobs == [] then 0 else Times(jobs[..|jobs| - 1], id) + if jobs[|jobs| - 1].id == id then 1 else 0
  }

  predicate Holds(w: Worker, id: nat) {
    match w
    case Waiting => false
    case Exited(i) => i == id
    case _ => w.job.id == id
  }

  function Held(ws: seq<Worker>, id: nat): nat {
    if ws == [] then 0 else Held(ws[..|ws| - 1], id) + if Holds(ws[|ws| - 1], id) then 1 else 0
  }

  /** A job as it may come out of a worker: its number and its skip mark are those it was dispatched with. */
  predicate Genuine(c: Config, job: Job) {
    job.id < c.Jobs() && job.isSkip == c.skip[job.id]
  }

  predicate WorkerOk(c: Config, w: Worker) {
    match w
    case Waiting => true
    case Got(job) => job == c.Dispatched(job.id) && job.id < c.Total()
    case Cleared(job) => Genuine(c, job) && !job.isBreak
    case Putting(job) => Genuine(c, job)
    case Exited(id) => c.Jobs() <= id < c.Total()
  }

  function Tallied(jobs: seq<Job>): Tally {
    if jobs == [] then Tally(0, 0, 0, 0, 0) else Count(Tallied(jobs[..|jobs| - 1]), jobs[|jobs| - 1])
  }

  /** In how many places outside the input queue job number `id` is. */
  function Places(s: State, id: nat): nat {
    Times(s.collected, id) + Times(s.output, id) + Held(s.workers, id)
  }

  /** Every job taken off the input queue is in exactly one other place. */
  ghost predicate InPlace(s: State) {
    |s.input| <= s.put && forall id: nat :: Places(s, id) == if id < s.put - |s.input| then 1 else 0
  }

  /** The input queue holds the latest jobs put, in order, and every job put earlier is in exactly one other place. */
  ghost predicate Inv(c: Config, s: State) {
    && |s.workers| == c.processors
    && |s.input| <= s.put <= c.Total() && |s.collected| <= c.Jobs() && s.joined <= c.processors
    && (forall k | 0 <= k < |s.input| :: s.input[k] == c.Dispatched(s.put - |s.input| + k))
    && InPlace(s)
    && (forall w | 0 <= w < |s.workers| :: WorkerOk(c, s.workers[w]))
    && (forall k | 0 <= k < |s.output| :: Genuine(c, s.output[k]))
    && (forall k | 0 <= k < |s.collected| :: Genuine(c, s.collected[k]))
    && s.tally == Tallied(s.collected)
    && (forall w | 0 <= w < s.joined :: s.workers[w].Exited?)
  }

  lemma {:induction false} HeldUpdate(ws: seq<Worker>, w: nat, x: Worker, id: nat)
    requires w < |ws|
    ensures Held(ws[w := x], id) == Held(ws, id) + (if Holds(x, id) then 1 else 0) - (if Holds(ws[w], id) then 1 else 0)
  {
    var front, last := ws[..|ws| - 1], |ws| - 1;
    if w == last {
      assert ws[w := x][..last] == front;
    } else {
      assert ws[w := x][..last] == front[w := x];
      HeldUpdate(front, w, x, id);
    }
  }

  lemma {:induction false} TimesTail(jobs: seq<Job>, id: nat)
    requires jobs != []
    ensures Times(jobs, id) == Times(jobs[1..], id) + if jobs[0].id == id then 1 else 0
  {
    if |jobs| > 1 {
      TimesTail(jobs[..|jobs| - 1], id);
      assert jobs[1..][..|jobs[1..]| - 1] == jobs[..|jobs| - 1][1..];
    }
  }

  lemma TimesAppend(jobs: seq<Job>, job: Job, id: nat)
    ensures Times(jobs + [job], id) == Times(jobs, id) + if job.id == id then 1 else 0
  {
    assert (jobs + [job])[..|jobs|] == jobs;
  }

  lemma {:induction false} NoneHeld(n: nat, id: nat)
    ensures Held(seq(n, _ => Waiting), id) == 0
  {
    if n > 0 {
      NoneHeld(n - 1, id);
      assert seq(n, _ => Waiting)[..n - 1] == seq(n - 1, _ => Waiting);
    }
  }

  lemma InitInv(c: Config)
    ensures Inv(c, Init(c))
  {
    forall id: nat ensures Places(Init(c), id) == 0 {
      NoneHeld(c.processors, id);
    }
  }

  lemma MainPlaces(c: Config, s: State, id: nat)
    requires Enabled(c, s, Main)
    ensures Places(MainStep(c, s), id) == Places(s, id)
  {
    if s.put == c.Total() && |s.collected| < c.Jobs() {
      TimesTail(s.output, id);
      TimesAppend(s.collected, s.output[0], id);
    }
  }

  lemma MainKeeps(c: Config, s: State)
    requires Inv(c, s) && Enabled(c, s, Main)
    ensures Inv(c, MainStep(c, s))
  {
    var s' := MainStep(c, s);
    forall id: nat ensures Places(s', id) == if id < s'.put - |s'.input| then 1 else 0 {
      MainPlaces(c, s, id);
    }
    if s.put == c.Total() && |s.collected| < c.Jobs() {
      assert s'.collected[..|s.collected|] == s.collected;
    }
  }

  lemma WorkPlaces(s: State, w: nat, rc: int, id: nat)
    requires w < |s.workers| && !s.workers[w].Exited? && (s.workers[w].Waiting? ==> s.input != [])
    ensures Places(WorkStep(s, w, rc), id) == Places(s, id) + if s.workers[w].Waiting?
      && s.input[0].id == id then 1 else 0
  {
    var s' := WorkStep(s, w, rc);
    HeldUpdate(s.workers, w, s'.workers[w], id);
    assert s'.workers == s.workers[w := s'.workers[w]];
    if s.workers[w].Putting? {
      TimesAppend(s.output, s.workers[w].job, id);
    }
  }

  lemma WorkInPlace(c: Config, s: State, w: nat, rc: int)
    requires Enabled(c, s, Work(w, rc)) && InPlace(s)
    requires s.workers[w].Waiting? ==> s.input[0].id == s.put - |s.input|
    ensures InPlace(WorkStep(s, w, rc))
  {
    forall id: nat
      ensures Places(WorkStep(s, w, rc), id) == Places(s, id) + if s.workers[w].Waiting?
      && s.input[0].id == id then 1 else 0 {
      WorkPlaces(s, w, rc, id);
    }
  }

  lemma WorkKeeps(c: Config, s: State, w: nat, rc: int)
    requires Inv(c, s) && Enabled(c, s, Work(w, rc))
    ensures Inv(c, WorkStep(s, w, rc))
  {
    WorkInPlace(c, s, w, rc);
    WorkerOkAfter(c, s, w, rc);
  }

  lemma WorkerOkAfter(c: Config, s: State, w: nat, rc: int)
    requires Inv(c, s) && Enabled(c, s, Work(w, rc))
    ensures forall v | 0 <= v < |s.workers| :: WorkerOk(c, WorkStep(s, w, rc).workers[v])
  {
    assert WorkerOk(c, s.workers[w]);
  }

  /** Every step keeps the invariant. */
  lemma StepKeeps(c: Config, s: State, a: Action)
    requires Inv(c, s) && Enabled(c, s, a)
    ensures Inv(c, Next(c, s, a))
  {
    match a
    case Main => MainKeeps(c, s);
    case Work(w, rc) => WorkKeeps(c, s, w, rc);
    case Interrupt => Raised(c, s);
  }

  lemma Raised(c: Config, s: State)
    requires Inv(c, s)
    ensures Inv(c, s.(threadExit := true))
  {
    forall id: nat ensures Places(s.(threadExit := true), id) == Places(s, id) {}
  }

  // ----- counting

  /** A list of jobs in which every number of `ids` occurs is at least as long as `ids` is large. */
  lemma {:induction false} CoveredByJobs(jobs: seq<Job>, ids: set<nat>)
    requires forall id | id in ids :: Times(jobs, id) > 0
    ensures |ids| <= |jobs|
  {
    if jobs != [] {
      CoveredByJobs(jobs[..|jobs| - 1], ids - {jobs[|jobs| - 1].id});
    } else if id :| id in ids {
    }
  }

  /** A list of jobs with numbers from `ids`, none twice, is at most as long as `ids` is large. */
  lemma {:induction false} FitInto(jobs: seq<Job>, ids: set<nat>)
    requires forall k | 0 <= k < |jobs| :: jobs[k].id in ids
    requires forall id | id in ids :: Times(jobs, id) <= 1
    ensures |jobs| <= |ids|
  {
    if jobs != [] {
      var front, last := jobs[..|jobs| - 1], jobs[|jobs| - 1];
      forall k | 0 <= k < |front| ensures front[k].id in ids - {last.id} {
        Occurs(front, k);
      }
      FitInto(front, ids - {last.id});
    }
  }

  lemma {:induction false} Occurs(jobs: seq<Job>, k: nat)
    requires k < |jobs|
    ensures Times(jobs, jobs[k].id) > 0
  {
    if k < |jobs| - 1 {
      Occurs(jobs[..|jobs| - 1], k);
    }
  }

  lemma {:induction false} OccursSomewhere(jobs: seq<Job>, id: nat) returns (k: nat)
    requires Times(jobs, id) > 0
    ensures k < |jobs| && jobs[k].id == id
  {
    k := |jobs| - 1;
    if jobs[k].id != id {
      k := OccursSomewhere(jobs[..|jobs| - 1], id);
    }
  }

  lemma {:induction false} CoveredByWorkers(ws: seq<Worker>, w: nat, ids: set<nat>)
    requires w < |ws| && ws[w].Waiting?
    requires forall id | id in ids :: Held(ws, id) > 0
    ensures |ids| < |ws|
  {
    var front, last := ws[..|ws| - 1], ws[|ws| - 1];
    if w == |ws| - 1 {
      CoveredByAll(front, ids);
    } else {
      match last
      case Waiting => CoveredByWorkers(front, w, ids);
      case Exited(i) => CoveredByWorkers(front, w, ids - {i});
      case _ => CoveredByWorkers(front, w, ids - {last.job.id});
    }
  }

  lemma {:induction false} CoveredByAll(ws: seq<Worker>, ids: set<nat>)
    requires forall id | id in ids :: Held(ws, id) > 0
    ensures |ids| <= |ws|
  {
    if ws != [] {
      var front, last := ws[..|ws| - 1], ws[|ws| - 1];
      match last
      case Waiting => CoveredByAll(front, ids);
      case Exited(i) => CoveredByAll(front, ids - {i});
      case _ => CoveredByAll(front, ids - {last.job.id});
    } else if id :| id in ids {
    }
  }

  lemma {:induction false} ExitedFit(ws: seq<Worker>, ids: set<nat>)
    requires forall w | 0 <= w < |ws| :: ws[w].Exited? && ws[w].id in ids
    requires forall id | id in ids :: Held(ws, id) <= 1
    ensures |ws| <= |ids|
  {
    if ws != [] {
      var front, last := ws[..|ws| - 1], ws[|ws| - 1];
      forall w | 0 <= w < |front| ensures front[w].id in ids - {last.id} {
        HeldSomewhere(front, w, front[w].id);
      }
      ExitedFit(front, ids - {last.id});
    }
  }

  lemma {:induction false} HeldSomewhere(ws: seq<Worker>, w: nat, id: nat)
    requires w < |ws| && Holds(ws[w], id)
    ensures Held(ws, id) > 0
  {
    if w < |ws| - 1 {
      HeldSomewhere(ws[..|ws| - 1], w, id);
    }
  }

  lemma {:induction false} NotHeld(ws: seq<Worker>, id: nat)
    requires forall w | 0 <= w < |ws| :: !Holds(ws[w], id)
    ensures Held(ws, id) == 0
  {
    if ws != [] {
      NotHeld(ws[..|ws| - 1], id);
    }
  }

  /** Workers at rest hold no jobs other than break jobs. */
  lemma JobsNotHeld(c: Config, s: State, id: nat)
    requires Inv(c, s) && id < c.Jobs()
    requires forall w | 0 <= w < |s.workers| :: s.workers[w].Waiting? || s.workers[w].Exited?
    ensures Held(s.workers, id) == 0
  {
    forall w | 0 <= w < |s.workers| ensures !Holds(s.workers[w], id) {
      assert WorkerOk(c, s.workers[w]);
    }
    NotHeld(s.workers, id);
  }

  // ----- whole runs

  /** The state a sequence of actions leads to, if each is enabled when it is taken. */
  function Exec(c: Config, acts: seq<Action>): Option<State> {
    if acts == [] then Some(Init(c))
    else
      var front, last := Exec(c, acts[..|acts| - 1]), acts[|acts| - 1];
      if front.Some? && Enabled(c, front.value, last) then Some(Next(c, front.value, last)) else None
  }

  lemma {:induction false} RunInv(c: Config, acts: seq<Action>)
    requires Exec(c, acts).Some?
    ensures Inv(c, Exec(c, acts).value)
  {
    if acts == [] {
      InitInv(c);
    } else {
      RunInv(c, acts[..|acts| - 1]);
      StepKeeps(c, Exec(c, acts[..|acts| - 1]).value, acts[|acts| - 1]);
    }
  }

  /** Whatever the interleaving, as long as run_tests has not finished some thread can move. */
  lemma NeverStuck(c: Config, acts: seq<Action>) returns (a: Action)
    requires c.processors > 0 && Exec(c, acts).Some? && !Finished(c, Exec(c, acts).value)
    ensures a != Interrupt && Enabled(c, Exec(c, acts).value, a)
  {
    var s := Exec(c, acts).value;
    RunInv(c, acts);
    if w :| 0 <= w < |s.workers| && Enabled(c, s, Work(w, 0)) {
      a := Work(w, 0);
    } else {
      a := Main;
      NobodyMoves(c, s);
    }
  }

  /** A signal may arrive in every reachable state, and any worker with a job in hand, or with one to take, may move
      next whatever its run returns. */
  lemma AnyMoment(c: Config, acts: seq<Action>)
    requires Exec(c, acts).Some?
    ensures var s := Exec(c, acts).value;
      !s.threadExit ==> Exec(c, acts + [Interrupt]) == Some(s.(threadExit := true))
    ensures var s := Exec(c, acts).value;
      forall w: nat, rc: int | w < |s.workers| && !s.workers[w].Exited? && (s.workers[w].Waiting? ==> s.input != []) ::
        Exec(c, acts + [Work(w, rc)]).Some?
  {
    assert (acts + [Interrupt])[..|acts|] == acts;
    forall w: nat, rc: int ensures (acts + [Work(w, rc)])[..|acts|] == acts {}
  }

  lemma NobodyMoves(c: Config, s: State)
    requires Inv(c, s) && c.processors > 0 && !Finished(c, s)
    requires forall w: nat | w < |s.workers| :: !Enabled(c, s, Work(w, 0))
    ensures Enabled(c, s, Main)
  {
    forall w: nat | w < |s.workers| ensures s.workers[w].Exited? || (s.workers[w].Waiting? && s.input == []) {
      assert !Enabled(c, s, Work(w, 0));
    }
    if s.put == c.Total() {
      if s.input != [] {
        ExitedNeedBreaks(c, s);
      } else if |s.collected| < c.Jobs() {
        if s.output == [] {
          MissingResult(c, s);
        }
      } else if s.workers[s.joined].Waiting? {
        BreaksHeld(c, s);
        CoveredByWorkers(s.workers, s.joined, Range(c.Jobs(), c.Total()));
      }
    }
  }

  /** With jobs still queued, not all workers can have returned. */
  lemma ExitedNeedBreaks(c: Config, s: State)
    requires Inv(c, s) && s.put == c.Total() && c.processors > 0
    requires forall w | 0 <= w < |s.workers| :: s.workers[w].Exited?
    ensures s.input == []
  {
    var taken := s.put - |s.input|;
    forall w | 0 <= w < |s.workers| ensures c.Jobs() <= s.workers[w].id < taken {
      assert WorkerOk(c, s.workers[w]);
      HeldSomewhere(s.workers, w, s.workers[w].id);
      assert Places(s, s.workers[w].id) > 0;
    }
    assert c.Jobs() <= s.workers[0].id < taken;
    forall id | id in Range(c.Jobs(), taken) ensures Held(s.workers, id) <= 1 {
      assert Places(s, id) <= 1;
    }
    ExitedFit(s.workers, Range(c.Jobs(), taken));
  }

  /** With everything taken, nothing in hand and nothing on the output queue, all results have been collected. */
  lemma MissingResult(c: Config, s: State)
    requires Inv(c, s) && s.put == c.Total() && s.input == [] && s.output == []
    requires forall w | 0 <= w < |s.workers| :: s.workers[w].Waiting? || s.workers[w].Exited?
    ensures |s.collected| >= c.Jobs()
  {
    forall id | id in Range(0, c.Jobs()) ensures Times(s.collected, id) > 0 {
      assert Places(s, id) == 1;
      JobsNotHeld(c, s, id);
    }
    CoveredByJobs(s.collected, Range(0, c.Jobs()));
  }

  /** With everything taken, every break job is with a worker. */
  lemma BreaksHeld(c: Config, s: State)
    requires Inv(c, s) && s.put == c.Total() && s.input == []
    ensures forall id | id in Range(c.Jobs(), c.Total()) :: Held(s.workers, id) > 0
  {
    forall id | id in Range(c.Jobs(), c.Total()) ensures Held(s.workers, id) > 0 {
      assert Places(s, id) == 1;
      NotAmong(c, s.collected, id);
      NotAmong(c, s.output, id);
    }
  }

  lemma NotAmong(c: Config, jobs: seq<Job>, id: nat)
    requires (forall k | 0 <= k < |jobs| :: Genuine(c, jobs[k])) && id >= c.Jobs()
    ensures Times(jobs, id) == 0
  {
    if Times(jobs, id) > 0 {
      var k := OccursSomewhere(jobs, id);
    }
  }

  /** Without a worker no result ever comes back, so a run with jobs never finishes. */
  lemma {:induction false} NoWorkersNoResults(c: Config, acts: seq<Action>)
    requires c.processors == 0 && Exec(c, acts).Some?
    ensures var s := Exec(c, acts).value; s.collected == [] && s.output == [] && (c.Jobs() > 0 ==> !Finished(c, s))
  {
    if acts != [] {
      NoWorkersNoResults(c, acts[..|acts| - 1]);
      RunInv(c, acts[..|acts| - 1]);
    }
  }

  function Steps(w: Worker): nat {
    match w
    case Got(_) => 3
    case Cleared(_) => 2
    case Putting(_) => 1
    case _ => 0
  }

  function AllSteps(ws: seq<Worker>): nat {
    if ws == [] then 0 else AllSteps(ws[..|ws| - 1]) + Steps(ws[|ws| - 1])
  }

  lemma {:induction false} AllStepsUpdate(ws: seq<Worker>, w: nat, x: Worker)
    requires w < |ws|
    ensures AllSteps(ws[w := x]) == AllSteps(ws) + Steps(x) - Steps(ws[w])
  {
    var front, last := ws[..|ws| - 1], |ws| - 1;
    if w == last {
      assert ws[w := x][..last] == front;
    } else {
      assert ws[w := x][..last] == front[w := x];
      AllStepsUpdate(front, w, x);
    }
  }

  /** A bound on the number of steps still to come. */
  function Rank(c: Config, s: State): int {
    5 * (c.Total() - s.put) + 4 * |s.input| + AllSteps(s.workers) + (c.Jobs() - |s.collected|)
      + (c.processors - s.joined) + if s.threadExit then 0 else 1
  }

  lemma StepsDown(c: Config, s: State, a: Action)
    requires Inv(c, s) && Enabled(c, s, a)
    ensures 0 <= Rank(c, Next(c, s, a)) < Rank(c, s)
  {
    StepKeeps(c, s, a);
    if a.Work? {
      var s' := Next(c, s, a);
      AllStepsUpdate(s.workers, a.w, s'.workers[a.w]);
      assert s'.workers == s.workers[a.w := s'.workers[a.w]];
    }
  }

  /** Every interleaving ends: no run is longer than this. */
  lemma {:induction false} RunsEnd(c: Config, acts: seq<Action>)
    requires Exec(c, acts).Some?
    ensures |acts| <= 6 * c.Jobs() + 6 * c.processors + 1
    ensures 0 <= Rank(c, Exec(c, acts).value) <= 6 * c.Jobs() + 6 * c.processors + 1 - |acts|
  {
    RunInv(c, acts);
    if acts == [] {
      NoSteps(c.processors);
    } else {
      RunInv(c, acts[..|acts| - 1]);
      RunsEnd(c, acts[..|acts| - 1]);
      StepsDown(c, Exec(c, acts[..|acts| - 1]).value, acts[|acts| - 1]);
    }
  }

  lemma {:induction false} NoSteps(n: nat)
    ensures AllSteps(seq(n, _ => Waiting)) == 0
  {
    if n > 0 {
      NoSteps(n - 1);
      assert seq(n, _ => Waiting)[..n - 1] == seq(n - 1, _ => Waiting);
    }
  }

  lemma OneMoreAction(c: Config, acts: seq<Action>, a: Action)
    requires Exec(c, acts).Some? && Enabled(c, Exec(c, acts).value, a)
    ensures Exec(c, acts + [a]).Some? && |acts| < 6 * c.Jobs() + 6 * c.processors + 1
  {
    assert (acts + [a])[..|acts|] == acts;
    RunsEnd(c, acts + [a]);
  }

  lemma NothingToDo(c: Config, acts: seq<Action>)
    requires Exec(c, acts).Some? && c.processors == 0 && c.Jobs() == 0
    ensures Finished(c, Exec(c, acts).value)
  {
    RunInv(c, acts);
  }

  /** From every reachable state run_tests can still finish. */
  lemma {:induction false} CanFinish(c: Config, acts: seq<Action>) returns (more: seq<Action>)
    requires Exec(c, acts).Some? && (c.processors > 0 || c.Jobs() == 0)
    ensures FinishingRun(c, acts + more)
    decreases 6 * c.Jobs() + 6 * c.processors + 1 - |acts|
  {
    if Finished(c, Exec(c, acts).value) {
      more := [];
      assert acts + more == acts;
    } else if c.processors == 0 {
      NothingToDo(c, acts);
    } else {
      var a := NeverStuck(c, acts);
      OneMoreAction(c, acts, a);
      var rest := CanFinish(c, acts + [a]);
      more := [a] + rest;
      assert acts + more == acts + [a] + rest;
    }
  }

  ghost predicate FinishingRun(c: Config, acts: seq<Action>) {
    Exec(c, acts).Some? && Finished(c, Exec(c, acts).value)
  }

  /** A run that finishes exists exactly if there is a worker or there is nothing to do. */
  lemma FinishesIff(c: Config)
    ensures (exists acts :: FinishingRun(c, acts)) <==> c.processors > 0 || c.Jobs() == 0
  {
    if c.processors > 0 || c.Jobs() == 0 {
      var acts := CanFinish(c, []);
      assert [] + acts == acts && FinishingRun(c, acts);
    } else if acts :| FinishingRun(c, acts) {
      NoWorkersNoResults(c, acts);
    }
  }

  predicate Good(job: Job) {
    !job.isBreak && (job.isSkip || job.returncode == 0)
  }

  lemma {:induction false} TalliedGood(jobs: seq<Job>)
    ensures Tallied(jobs).passed + Tallied(jobs).skipped <= |jobs|
    ensures Tallied(jobs).passed + Tallied(jobs).skipped == |jobs| <==> forall k | 0 <= k < |jobs| :: Good(jobs[k])
  {
    if jobs != [] {
      TalliedGood(jobs[..|jobs| - 1]);
      assert jobs == jobs[..|jobs| - 1] + [jobs[|jobs| - 1]];
    }
  }

  // ----- what the results come from

  /** The state before action number `t` of a run. */
  function Before(c: Config, acts: seq<Action>, t: nat): State
    requires Exec(c, acts).Some? && t <= |acts|
  {
    ExecPrefix(c, acts, t);
    Exec(c, acts[..t]).value
  }

  lemma {:induction false} ExecPrefix(c: Config, acts: seq<Action>, t: nat)
    requires Exec(c, acts).Some? && t <= |acts|
    ensures Exec(c, acts[..t]).Some?
    ensures t < |acts| ==>
      var s := Exec(c, acts[..t]).value;
      Enabled(c, s, acts[t]) && Exec(c, acts[..t + 1]) == Some(Next(c, s, acts[t]))
    decreases |acts|
  {
    if t < |acts| {
      var front := acts[..|acts| - 1];
      if t < |front| {
        ExecPrefix(c, front, t);
        assert front[..t] == acts[..t] && front[..t + 1] == acts[..t + 1];
      } else {
        assert acts[..t] == front && acts[..t + 1] == acts;
      }
    } else {
      assert acts[..t] == acts;
    }
  }

  lemma NextBefore(c: Config, acts: seq<Action>, t: nat)
    requires Exec(c, acts).Some? && t < |acts|
    ensures Enabled(c, Before(c, acts, t), acts[t])
    ensures Before(c, acts, t + 1) == Next(c, Before(c, acts, t), acts[t])
  {
    ExecPrefix(c, acts, t);
  }

  /** Action `t` is the move with which a worker that took job `id` looks whether to break off, to skip it or to run
      it. */
  ghost predicate LooksAt(c: Config, acts: seq<Action>, t: nat, id: nat)
    requires Exec(c, acts).Some?
  {
    && t < |acts| && acts[t].Work?
    && var ws := Before(c, acts, t).workers; acts[t].w < |ws| && ws[acts[t].w].Got? && ws[acts[t].w].job.id == id
  }

  /** Action `t` ends the run of job `id`, with return code `rc`. */
  ghost predicate Runs(c: Config, acts: seq<Action>, t: nat, id: nat, rc: int)
    requires Exec(c, acts).Some?
  {
    && t < |acts| && acts[t].Work? && acts[t].rc == rc
    && var ws := Before(c, acts, t).workers; acts[t].w < |ws| && ws[acts[t].w].Cleared? && ws[acts[t].w].job.id == id
  }

  /** Some worker looked at job `id` while the interrupt flag was as given. */
  ghost predicate Looked(c: Config, acts: seq<Action>, id: nat, interrupted: bool)
    requires Exec(c, acts).Some?
  {
    exists t: nat :: LooksAt(c, acts, t, id) && Before(c, acts, t).threadExit == interrupted
  }

  ghost predicate Ran(c: Config, acts: seq<Action>, id: nat, rc: int)
    requires Exec(c, acts).Some?
  {
    exists t: nat :: Runs(c, acts, t, id, rc)
  }

  /** A job comes out of a worker marked as break exactly if the worker looked at it during an interrupt; a job that
      is neither that nor to be skipped was run, and returns what the run returned; other jobs return as they were. */
  ghost predicate Earned(c: Config, acts: seq<Action>, job: Job)
    requires Exec(c, acts).Some?
  {
    && Looked(c, acts, job.id, job.isBreak)
    && (if job.isBreak || job.isSkip then job.returncode == 0 else Ran(c, acts, job.id, job.returncode))
  }

  ghost predicate EarnedBy(c: Config, acts: seq<Action>, w: Worker)
    requires Exec(c, acts).Some?
  {
    match w
    case Cleared(job) => Looked(c, acts, job.id, false) && job.returncode == 0
    case Putting(job) => Earned(c, acts, job)
    case _ => true
  }

  ghost predicate AllEarned(c: Config, acts: seq<Action>, s: State)
    requires Exec(c, acts).Some?
  {
    && (forall w | 0 <= w < |s.workers| :: EarnedBy(c, acts, s.workers[w]))
    && (forall k | 0 <= k < |s.output| :: Earned(c, acts, s.output[k]))
    && (forall k | 0 <= k < |s.collected| :: Earned(c, acts, s.collected[k]))
  }

  /** One more action does not change what came before. */
  lemma SameBefore(c: Config, acts: seq<Action>, a: Action, t: nat)
    requires Exec(c, acts + [a]).Some? && Exec(c, acts).Some? && t < |acts|
    ensures Before(c, acts + [a], t) == Before(c, acts, t) && (acts + [a])[t] == acts[t]
  {
    assert (acts + [a])[..t] == acts[..t];
  }

  lemma StillLooked(c: Config, acts: seq<Action>, a: Action, id: nat, interrupted: bool)
    requires Exec(c, acts + [a]).Some? && Exec(c, acts).Some? && Looked(c, acts, id, interrupted)
    ensures Looked(c, acts + [a], id, interrupted)
  {
    var t: nat :| LooksAt(c, acts, t, id) && Before(c, acts, t).threadExit == interrupted;
    SameBefore(c, acts, a, t);
    assert LooksAt(c, acts + [a], t, id);
  }

  lemma StillRan(c: Config, acts: seq<Action>, a: Action, id: nat, rc: int)
    requires Exec(c, acts + [a]).Some? && Exec(c, acts).Some? && Ran(c, acts, id, rc)
    ensures Ran(c, acts + [a], id, rc)
  {
    var t: nat :| Runs(c, acts, t, id, rc);
    SameBefore(c, acts, a, t);
    assert Runs(c, acts + [a], t, id, rc);
  }

  lemma StillEarned(c: Config, acts: seq<Action>, a: Action, job: Job)
    requires Exec(c, acts + [a]).Some? && Exec(c, acts).Some? && Earned(c, acts, job)
    ensures Earned(c, acts + [a], job)
  {
    StillLooked(c, acts, a, job.id, job.isBreak);
    if !job.isBreak && !job.isSkip {
      StillRan(c, acts, a, job.id, job.returncode);
    }
  }

  lemma AllStillEarned(c: Config, acts: seq<Action>, a: Action, s: State)
    requires Exec(c, acts + [a]).Some? && Exec(c, acts).Some? && AllEarned(c, acts, s)
    ensures AllEarned(c, acts + [a], s)
  {
    forall w | 0 <= w < |s.workers| ensures EarnedBy(c, acts + [a], s.workers[w]) {
      assert EarnedBy(c, acts, s.workers[w]);
      match s.workers[w]
      case Cleared(job) => StillLooked(c, acts, a, job.id, false);
      case Putting(job) => StillEarned(c, acts, a, job);
      case _ =>
    }
    forall k | 0 <= k < |s.output| ensures Earned(c, acts + [a], s.output[k]) {
      StillEarned(c, acts, a, s.output[k]);
    }
    forall k | 0 <= k < |s.collected| ensures Earned(c, acts + [a], s.collected[k]) {
      StillEarned(c, acts, a, s.collected[k]);
    }
  }

  /** What the last action does to a worker is earned. */
  lemma MoveEarned(c: Config, acts: seq<Action>, w: nat, rc: int)
    requires Exec(c, acts).Some? && Enabled(c, Exec(c, acts).value, Work(w, rc))
    requires Exec(c, acts + [Work(w, rc)]).Some?
    requires EarnedBy(c, acts + [Work(w, rc)], Exec(c, acts).value.workers[w]) && Inv(c, Exec(c, acts).value)
    ensures EarnedBy(c, acts + [Work(w, rc)], WorkStep(Exec(c, acts).value, w, rc).workers[w])
  {
    var s, all, t := Exec(c, acts).value, acts + [Work(w, rc)], |acts|;
    assert all[..t] == acts;
    assert Before(c, all, t) == s && all[t] == Work(w, rc);
    assert WorkerOk(c, s.workers[w]);
    match s.workers[w]
    case Got(job) => assert LooksAt(c, all, t, job.id);
    case Cleared(job) => assert Runs(c, all, t, job.id, rc);
    case _ =>
  }

  lemma NextEarned(c: Config, acts: seq<Action>, a: Action)
    requires Exec(c, acts).Some? && Exec(c, acts + [a]).Some? && AllEarned(c, acts, Exec(c, acts).value)
    requires Enabled(c, Exec(c, acts).value, a) && Exec(c, acts + [a]).value == Next(c, Exec(c, acts).value, a)
    ensures AllEarned(c, acts + [a], Exec(c, acts + [a]).value)
  {
    var s := Exec(c, acts).value;
    RunInv(c, acts);
    AllStillEarned(c, acts, a, s);
    if a.Work? {
      MoveEarned(c, acts, a.w, a.rc);
    }
  }

  /** Every job that came out of a worker was looked at, and run if it was to be. */
  lemma {:induction false} RunEarned(c: Config, acts: seq<Action>)
    requires Exec(c, acts).Some?
    ensures AllEarned(c, acts, Exec(c, acts).value)
  {
    if acts != [] {
      RunEarned(c, acts[..|acts| - 1]);
      assert acts == acts[..|acts| - 1] + [acts[|acts| - 1]];
      NextEarned(c, acts[..|acts| - 1], acts[|acts| - 1]);
    }
  }

  /** Where a job may be: with a worker, on the output queue, or collected. */
  datatype Spot = AtWorker(w: nat) | InOutput(k: nat) | InCollected(k: nat)

  predicate IsAt(s: State, id: nat, n: nat, p: Spot) {
    match p
    case AtWorker(w) => w < |s.workers| && Holds(s.workers[w], id) && Steps(s.workers[w]) < n
    case InOutput(k) => k < |s.output| && s.output[k].id == id
    case InCollected(k) => k < |s.collected| && s.collected[k].id == id
  }

  /** Job `id` is with a worker that has fewer than `n` moves to make with it, or has come out of one. */
  ghost predicate Passed(s: State, id: nat, n: nat) {
    exists p :: IsAt(s, id, n, p)
  }

  lemma StillPassed(c: Config, s: State, a: Action, id: nat, n: nat)
    requires Enabled(c, s, a) && Passed(s, id, n)
    ensures Passed(Next(c, s, a), id, n)
  {
    var p :| IsAt(s, id, n, p);
    var p' := Moved(c, s, a, id, n, p);
  }

  /** Where the job is after one more action. */
  lemma Moved(c: Config, s: State, a: Action, id: nat, n: nat, p: Spot) returns (p': Spot)
    requires Enabled(c, s, a) && IsAt(s, id, n, p)
    ensures IsAt(Next(c, s, a), id, n, p')
  {
    var taken := a.Main? && s.put == c.Total() && |s.collected| < c.Jobs();
    match p
    case AtWorker(w) => p' := if a.Work? && a.w == w && s.workers[w].Putting? then InOutput(|s.output|) else p;
    case InOutput(k) =>
      p' := if !taken then p else if k == 0 then InCollected(|s.collected|) else InOutput(k - 1);
    case InCollected(_) => p' := p;
  }

  lemma {:induction false} PassedLater(c: Config, acts: seq<Action>, t: nat, u: nat, id: nat, n: nat)
    requires Exec(c, acts).Some? && t <= u <= |acts| && Passed(Before(c, acts, t), id, n)
    ensures Passed(Before(c, acts, u), id, n)
  {
    if t < u {
      PassedLater(c, acts, t, u - 1, id, n);
      NextBefore(c, acts, u - 1);
      StillPassed(c, Before(c, acts, u - 1), acts[u - 1], id, n);
    }
  }

  /** A job with a worker is nowhere else, so it has not passed. */
  lemma NotPassed(c: Config, s: State, w: nat, id: nat)
    requires Inv(c, s) && w < |s.workers| && Holds(s.workers[w], id)
    ensures !Passed(s, id, Steps(s.workers[w]))
  {
    assert Places(s, id) <= 1;
    HeldSomewhere(s.workers, w, id);
    if Passed(s, id, Steps(s.workers[w])) {
      var p :| IsAt(s, id, Steps(s.workers[w]), p);
      match p
      case AtWorker(v) => HeldTwice(s.workers, v, w, id);
      case InOutput(k) => Occurs(s.output, k);
      case InCollected(k) => Occurs(s.collected, k);
    }
  }

  lemma HeldTwice(ws: seq<Worker>, v: nat, w: nat, id: nat)
    requires v < |ws| && w < |ws| && v != w && Holds(ws[v], id) && Holds(ws[w], id)
    ensures Held(ws, id) > 1
  {
    HeldUpdate(ws, v, Waiting, id);
    HeldSomewhere(ws[v := Waiting], w, id);
  }

  /** Of two moves with the same job the later one is a later kind of move, so a job is looked at and run at most
      once. */
  lemma MovesOnce(c: Config, acts: seq<Action>, t: nat, u: nat, id: nat)
    requires Exec(c, acts).Some? && t < u < |acts| && acts[t].Work? && acts[u].Work?
    requires acts[t].w < |Before(c, acts, t).workers| && Holds(Before(c, acts, t).workers[acts[t].w], id)
    requires acts[u].w < |Before(c, acts, u).workers| && Holds(Before(c, acts, u).workers[acts[u].w], id)
    ensures Steps(Before(c, acts, u).workers[acts[u].w]) < Steps(Before(c, acts, t).workers[acts[t].w])
  {
    var s, s', n := Before(c, acts, t), Before(c, acts, u), Steps(Before(c, acts, t).workers[acts[t].w]);
    NextBefore(c, acts, t);
    AfterMove(c, s, acts[t], id);
    PassedLater(c, acts, t + 1, u, id, n);
    InvBefore(c, acts, u);
    NotPassed(c, s', acts[u].w, id);
    PassedMore(s', id, n, Steps(s'.workers[acts[u].w]));
  }

  lemma InvBefore(c: Config, acts: seq<Action>, t: nat)
    requires Exec(c, acts).Some? && t <= |acts|
    ensures Inv(c, Before(c, acts, t))
  {
    ExecPrefix(c, acts, t);
    RunInv(c, acts[..t]);
  }

  lemma PassedMore(s: State, id: nat, n: nat, m: nat)
    requires Passed(s, id, n)
    ensures n <= m ==> Passed(s, id, m)
  {
    var p :| IsAt(s, id, n, p);
    assert n <= m ==> IsAt(s, id, m, p);
  }

  lemma AfterMove(c: Config, s: State, a: Action, id: nat)
    requires Enabled(c, s, a) && a.Work? && Holds(s.workers[a.w], id)
    ensures Passed(Next(c, s, a), id, Steps(s.workers[a.w]))
  {
    var p := if s.workers[a.w].Putting? then InOutput(|s.output|) else AtWorker(a.w);
    assert IsAt(Next(c, s, a), id, Steps(s.workers[a.w]), p);
  }

  lemma LookedOnce(c: Config, acts: seq<Action>, id: nat)
    requires Exec(c, acts).Some?
    ensures !(Looked(c, acts, id, true) && Looked(c, acts, id, false))
  {
    if Looked(c, acts, id, true) && Looked(c, acts, id, false) {
      var t: nat :| LooksAt(c, acts, t, id) && Before(c, acts, t).threadExit;
      var u: nat :| LooksAt(c, acts, u, id) && !Before(c, acts, u).threadExit;
      MovesOnce(c, acts, if t < u then t else u, if t < u then u else t, id);
    }
  }

  lemma RanOnce(c: Config, acts: seq<Action>, id: nat, rc: int, rc': int)
    requires Exec(c, acts).Some? && Ran(c, acts, id, rc) && Ran(c, acts, id, rc')
    ensures rc == rc'
  {
    if rc != rc' {
      var t: nat :| Runs(c, acts, t, id, rc);
      var u: nat :| Runs(c, acts, u, id, rc');
      MovesOnce(c, acts, if t < u then t else u, if t < u then u else t, id);
    }
  }

  /** No interrupt was up when a worker looked at job `id`, and it was to be skipped or its run returned 0. */
  ghost predicate Succeeded(c: Config, acts: seq<Action>, id: nat)
    requires Exec(c, acts).Some? && id < c.Jobs()
  {
    Looked(c, acts, id, false) && (c.skip[id] || Ran(c, acts, id, 0))
  }

  /** When run_tests finishes, every dispatched job has come back exactly once with its own number and skip mark,
      and with the return code of its run; it is marked as break exactly if a worker looked at it during an interrupt.
      The queues are empty, every worker has returned after a break job of its own, and the return value is 0 exactly
      if every job that was not to be skipped was run and returned 0, and none was met by an interrupt. */
  lemma Outcome(c: Config, acts: seq<Action>)
    requires Exec(c, acts).Some? && Finished(c, Exec(c, acts).value) && c.processors > 0
    ensures var s := Exec(c, acts).value;
      && s.input == [] && s.output == []
      && (forall id: nat :: Times(s.collected, id) == if id < c.Jobs() then 1 else 0)
      && (forall k | 0 <= k < |s.collected| :: Genuine(c, s.collected[k]) && Earned(c, acts, s.collected[k]))
      && (forall w | 0 <= w < |s.workers| :: s.workers[w].Exited?)
      && (forall id | c.Jobs() <= id < c.Total() :: Held(s.workers, id) == 1)
    ensures var s := Exec(c, acts).value;
      ExitValue(c, s) == 0 <==> forall id: nat | id < c.Jobs() :: Succeeded(c, acts, id)
    ensures var s := Exec(c, acts).value; ExitValue(c, s) == 0 || ExitValue(c, s) == 1
    ensures var s, t := Exec(c, acts).value, Exec(c, acts).value.tally;
      && t.passed == Number(s.collected, Pass) && t.failed == Number(s.collected, Fail)
      && t.crashed == Number(s.collected, Crash) && t.valgrind == Number(s.collected, Valgrind)
      && t.skipped == Number(s.collected, Skip)
  {
    var s := Exec(c, acts).value;
    RunInv(c, acts);
    ExitedNeedBreaks(c, s);
    AllCollected(c, s);
    BreaksHeld(c, s);
    forall id | c.Jobs() <= id < c.Total() ensures Held(s.workers, id) == 1 {
      assert id in Range(c.Jobs(), c.Total()) && Places(s, id) == 1;
    }
    RunEarned(c, acts);
    TallyExact(s.collected);
    TalliedGood(s.collected);
    GoodSucceeded(c, acts, s.collected);
  }

  lemma GoodSucceeded(c: Config, acts: seq<Action>, jobs: seq<Job>)
    requires Exec(c, acts).Some?
    requires forall k | 0 <= k < |jobs| :: Genuine(c, jobs[k]) && Earned(c, acts, jobs[k])
    requires forall id: nat | id < c.Jobs() :: Times(jobs, id) == 1
    ensures (forall k | 0 <= k < |jobs| :: Good(jobs[k])) <==>
      forall id: nat | id < c.Jobs() :: Succeeded(c, acts, id)
  {
    if forall k | 0 <= k < |jobs| :: Good(jobs[k]) {
      forall id: nat | id < c.Jobs() ensures Succeeded(c, acts, id) {
        var k := OccursSomewhere(jobs, id);
        assert Good(jobs[k]);
      }
    }
    if forall id: nat | id < c.Jobs() :: Succeeded(c, acts, id) {
      forall k | 0 <= k < |jobs| ensures Good(jobs[k]) {
        SucceededGood(c, acts, jobs[k]);
      }
    }
  }

  lemma SucceededGood(c: Config, acts: seq<Action>, job: Job)
    requires Exec(c, acts).Some? && Genuine(c, job) && Earned(c, acts, job) && Succeeded(c, acts, job.id)
    ensures Good(job)
  {
    LookedOnce(c, acts, job.id);
    if !job.isBreak && !job.isSkip {
      RanOnce(c, acts, job.id, job.returncode, 0);
    }
  }

  lemma AllCollected(c: Config, s: State)
    requires Inv(c, s) && Finished(c, s) && s.input == []
    ensures s.output == [] && forall id: nat :: Times(s.collected, id) == if id < c.Jobs() then 1 else 0
  {
    forall id: nat ensures Times(s.output, id) == 0 {
      assert Places(s, id) <= 1;
      if id < c.Jobs() {
        Spare(c, s, id);
      } else {
        NotAmong(c, s.output, id);
      }
    }
    NoneAtAll(s.output);
    forall id: nat ensures Times(s.collected, id) == if id < c.Jobs() then 1 else 0 {
      assert Places(s, id) == if id < c.Total() then 1 else 0;
      if id < c.Jobs() {
        JobsNotHeld(c, s, id);
      } else {
        NotAmong(c, s.collected, id);
      }
    }
  }

  lemma NoneAtAll(jobs: seq<Job>)
    requires forall id: nat :: Times(jobs, id) == 0
    ensures jobs == []
  {
    if jobs != [] {
      Occurs(jobs, 0);
    }
  }

  /** As many results as jobs have been collected, so none is missing. */
  lemma Spare(c: Config, s: State, id: nat)
    requires Inv(c, s) && |s.collected| == c.Jobs() && id < c.Jobs()
    ensures Times(s.collected, id) > 0
  {
    if Times(s.collected, id) == 0 {
      var ids := Range(0, c.Jobs()) - {id};
      forall k | 0 <= k < |s.collected| ensures s.collected[k].id in ids {
        Occurs(s.collected, k);
      }
      forall i | i in ids ensures Times(s.collected, i) <= 1 {
        assert Places(s, i) <= 1;
      }
      FitInto(s.collected, ids);
    }
  }

  lemma FlagStep(c: Config, s: State, a: Action)
    requires Enabled(c, s, a)
    ensures Next(c, s, a).threadExit <==> s.threadExit || a == Interrupt
  {}

  /** The interrupt flag is up exactly from the first signal on. */
  lemma {:induction false} FlagUp(c: Config, acts: seq<Action>, t: nat)
    requires Exec(c, acts).Some? && t <= |acts|
    ensures Before(c, acts, t).threadExit <==> exists u :: 0 <= u < t && acts[u] == Interrupt
  {
    if t > 0 {
      FlagUp(c, acts, t - 1);
      NextBefore(c, acts, t - 1);
      FlagStep(c, Before(c, acts, t - 1), acts[t - 1]);
    }
  }

  /** Results are collected in the order in which the workers have put them. */
  lemma {:induction false} CollectedInOrder(c: Config, acts: seq<Action>, t: nat)
    requires Exec(c, acts).Some? && t <= |acts|
    ensures var s, s' := Before(c, acts, t), Exec(c, acts).value;
      s.collected <= s'.collected && s.collected + s.output <= s'.collected + s'.output
    decreases |acts| - t
  {
    if t < |acts| {
      CollectedInOrder(c, acts, t + 1);
      NextBefore(c, acts, t);
      StepInOrder(c, Before(c, acts, t), acts[t]);
    } else {
      assert acts[..t] == acts;
    }
  }

  lemma StepInOrder(c: Config, s: State, a: Action)
    requires Enabled(c, s, a)
    ensures var s' := Next(c, s, a);
      s.collected <= s'.collected && s.collected + s.output <= s'.collected + s'.output
  {
    assert s.output != [] ==> s.collected + s.output == s.collected + [s.output[0]] + s.output[1..];
  }

  datatype Verdict = Pass | Fail | Crash | Valgrind | Skip | Break

  function VerdictOf(job: Job): Verdict {
    if job.isBreak then Break else if job.isSkip then Skip
    else match job.returncode case 0 => Pass case 1 => Fail case 2 => Valgrind case _ => Crash
  }

  function Number(jobs: seq<Job>, v: Verdict): nat {
    if jobs == [] then 0 else Number(jobs[..|jobs| - 1], v) + if VerdictOf(jobs[|jobs| - 1]) == v then 1 else 0
  }

  /** Every collected job is counted under its verdict and nowhere else. */
  lemma {:induction false} TallyExact(jobs: seq<Job>)
    ensures Tallied(jobs) ==
      Tally(Number(jobs, Pass), Number(jobs, Fail), Number(jobs, Crash), Number(jobs, Valgrind), Number(jobs, Skip))
  {
    if jobs != [] {
      TallyExact(jobs[..|jobs| - 1]);
    }
  }
}
