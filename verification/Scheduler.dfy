/**
 * The job scheduler of savvy_scheduler/libscheduler.c: its comparers, the moves of jobs
 * between the queue, the processor and the finished ones, and round-robin fairness.
 * Times are reals, and the priority queue hands out some least job.
 */
module Scheduler {
  import opened Basics

  datatype Scheme = FCFS | PRI | PPRI | PSRTF | RR | SJF

  type Id = int

  datatype Info = Info(
    arrival: int,
    priority: int,
    startTime: real,
    runningTime: real,
    remainingTime: real,
    rrTime: real
  )

  // ---------- the comparers ----------

  function Sign(x: real, y: real): int {
    if x < y then -1 else 1
  }

  function CompareFcfs(a: Info, b: Info): int {
    if a.arrival == b.arrival then 0 else if a.arrival < b.arrival then -1 else 1
  }

  function BreakTie(a: Info, b: Info): int {
    CompareFcfs(a, b)
  }

  function ComparePri(a: Info, b: Info): int {
    if a.priority == b.priority then BreakTie(a, b) else if a.priority < b.priority then -1 else 1
  }

  function ComparePsrtf(a: Info, b: Info): int {
    if a.remainingTime == b.remainingTime then BreakTie(a, b) else Sign(a.remainingTime, b.remainingTime)
  }

  function CompareRr(a: Info, b: Info): int {
    if a.rrTime == b.rrTime then BreakTie(a, b) else Sign(a.rrTime, b.rrTime)
  }

  function CompareSjf(a: Info, b: Info): int {
    if a.runningTime == b.runningTime then BreakTie(a, b) else Sign(a.runningTime, b.runningTime)
  }

  // The comparer that scheduler_start_up installs.
  function Compare(s: Scheme, a: Info, b: Info): int {
    match s
    case FCFS => CompareFcfs(a, b)
    case PRI => ComparePri(a, b)
    case PPRI => ComparePri(a, b)
    case PSRTF => ComparePsrtf(a, b)
    case RR => CompareRr(a, b)
    case SJF => CompareSjf(a, b)
  }

  // What a scheme ranks jobs by before their arrival.
  function Key(s: Scheme, a: Info): real {
    match s
    case FCFS => 0.0
    case PRI => a.priority as real
    case PPRI => a.priority as real
    case PSRTF => a.remainingTime
    case RR => a.rrTime
    case SJF => a.runningTime
  }

  // Every comparer orders jobs by its key and then by arrival, so a priority queue can
  // rely on it: it is antisymmetric, transitive and total.
  lemma ComparersOrder(s: Scheme, a: Info, b: Info, c: Info)
    ensures Compare(s, a, b) < 0 <==> Key(s, a) < Key(s, b) || (Key(s, a) == Key(s, b) && a.arrival < b.arrival)
    ensures Compare(s, a, b) == 0 <==> Key(s, a) == Key(s, b) && a.arrival == b.arrival
    ensures Compare(s, a, b) == -Compare(s, b, a)
    ensures Compare(s, a, b) <= 0 && Compare(s, b, c) <= 0 ==> Compare(s, a, c) <= 0
    ensures Compare(s, a, b) <= 0 && Compare(s, b, c) < 0 ==> Compare(s, a, c) < 0
  {
  }

  // ---------- jobs on the move ----------

  datatype State = State(
    scheme: Scheme,
    info: map<Id, Info>,      // of every job admitted so far
    queue: set<Id>,
    running: Option<Id>,      // the job the last call gave to the processor
    finished: set<Id>,
    dispatched: seq<Id>,      // every job that came out of the queue, in order
    arrived: seq<Id>,
    clock: real               // the last time a quantum expired
  ) {
    ghost function OnCpu(): set<Id> {
      if running.Some? then {running.value} else {}
    }
  }

  // Calls of the library; `pick` is what the priority queue hands out during the call.
  datatype Event =
    | NewJob(j: Id, time: real, priority: int, runningTime: real)
    | Expire(time: real, pick: Option<Id>)
    | Finish(j: Id)

  function Initial(scheme: Scheme): State {
    State(scheme, map[], {}, None, {}, [], [], -1.0)
  }

  function Fresh(time: real, priority: int, runningTime: real): Info {
    Info(time.Floor, priority, -1.0, runningTime, runningTime, -1.0)
  }

  // What an expired quantum does to the job it takes off the processor.
  function Stamped(i: Info, time: real): Info {
    i.(remainingTime := i.remainingTime - (time - i.startTime),
       rrTime := time,
       startTime := if i.startTime == -1.0 then time - 1.0 else i.startTime)
  }

  predicate Preemptive(s: Scheme) {
    s == PPRI || s == PSRTF || s == RR
  }

  ghost predicate Least(s: Scheme, info: map<Id, Info>, queue: set<Id>, j: Id) {
    j in queue && j in info && forall k | k in queue && k in info :: Compare(s, info[j], info[k]) <= 0
  }

  // The state before the poll of an expired quantum: a preempted job is back in the queue.
  function Evicted(s: State, time: real): State {
    if s.running.Some? && s.running.value in s.info then
      var j := s.running.value;
      s.(info := s.info[j := Stamped(s.info[j], time)], clock := time,
         queue := if Preemptive(s.scheme) then s.queue + {j} else s.queue,
         running := if Preemptive(s.scheme) then None else s.running)
    else
      s.(clock := time)
  }

  ghost predicate MayPick(s: State, pick: Option<Id>) {
    if s.running.Some? || s.queue == {} then pick == None
    else pick.Some? && Least(s.scheme, s.info, s.queue, pick.value)
  }

  function Picked(s: State, pick: Option<Id>): State {
    if pick == None then s
    else s.(queue := s.queue - {pick.value}, running := pick, dispatched := s.dispatched + [pick.value])
  }

  ghost predicate Allowed(s: State, e: Event) {
    match e
    case NewJob(j, time, _, _) => time >= 0.0 && j !in s.info
    case Expire(time, pick) => time >= 0.0 && MayPick(Evicted(s, time), pick)
    case Finish(j) => s.running == Some(j)
  }

  function Apply(s: State, e: Event): State {
    match e
    case NewJob(j, time, priority, runningTime) =>
      s.(info := s.info[j := Fresh(time, priority, runningTime)], queue := s.queue + {j}, arrived := s.arrived + [j])
    case Expire(time, pick) => Picked(Evicted(s, time), pick)
    case Finish(j) => s.(running := None, finished := s.finished + {j})
  }

  function After(s: State, es: seq<Event>): State {
    if es == [] then s else Apply(After(s, es[..|es| - 1]), es[|es| - 1])
  }

  ghost predicate Run(s: State, es: seq<Event>) {
    forall i | 0 <= i < |es| :: Allowed(After(s, es[..i]), es[i])
  }

  // ---------- no job is lost or duplicated ----------

  ghost predicate Places(s: State) {
    && s.queue + s.OnCpu() + s.finished == s.info.Keys
    && s.queue !! s.OnCpu() && s.queue !! s.finished && s.OnCpu() !! s.finished
  }

  ghost predicate Inv(s: State) {
    Places(s) && Logged(s)
  }

  ghost predicate Logged(s: State) {
    |s.arrived| == |s.info| && forall j :: j in s.arrived <==> j in s.info
  }

  lemma EvictedKeeps(s: State, time: real)
    requires Inv(s)
    ensures Inv(Evicted(s, time))
  {
    assert Evicted(s, time).info.Keys == s.info.Keys;
  }

  lemma PickedKeeps(s: State, pick: Option<Id>)
    requires Inv(s) && MayPick(s, pick)
    ensures Inv(Picked(s, pick))
  {
    hide Compare;
  }

  lemma NewKeeps(s: State, j: Id, i: Info)
    requires Inv(s) && j !in s.info
    ensures Inv(s.(info := s.info[j := i], queue := s.queue + {j}, arrived := s.arrived + [j]))
  {
    var s' := s.(info := s.info[j := i], queue := s.queue + {j}, arrived := s.arrived + [j]);
    assert s'.info.Keys == s.info.Keys + {j};
    hide Places, Logged;
    NewPlaced(s, s', j);
    NewLogged(s, s', j, i);
  }

  lemma NewLogged(s: State, s': State, j: Id, i: Info)
    requires Logged(s) && j !in s.info && s'.info == s.info[j := i] && s'.arrived == s.arrived + [j]
    ensures Logged(s')
  {
    assert forall k :: k in s'.arrived <==> k in s.arrived || k == j;
  }

  lemma NewPlaced(s: State, s': State, j: Id)
    requires Places(s) && j !in s.info && s'.info.Keys == s.info.Keys + {j}
    requires s'.queue == s.queue + {j} && s'.running == s.running && s'.finished == s.finished
    ensures Places(s')
  {
    assert s'.OnCpu() == s.OnCpu();
  }

  lemma FinishKeeps(s: State, j: Id)
    requires Inv(s) && s.running == Some(j)
    ensures Inv(s.(running := None, finished := s.finished + {j}))
  {
  }

  lemma StepKeeps(s: State, e: Event)
    requires Inv(s) && Allowed(s, e)
    ensures Inv(Apply(s, e)) && Apply(s, e).scheme == s.scheme
  {
    hide Inv, Evicted, Picked, MayPick, Fresh;
    match e
    case NewJob(j, time, priority, runningTime) =>
      NewKeeps(s, j, Fresh(time, priority, runningTime));
    case Expire(time, pick) =>
      EvictedKeeps(s, time);
      PickedKeeps(Evicted(s, time), pick);
      SchemeKept(s, time, pick);
    case Finish(j) =>
      FinishKeeps(s, j);
  }

  lemma SchemeKept(s: State, time: real, pick: Option<Id>)
    ensures Picked(Evicted(s, time), pick).scheme == s.scheme
  {
  }

  lemma SubRun(s: State, es: seq<Event>)
    requires es != [] && Run(s, es)
    ensures Run(s, es[..|es| - 1]) && Allowed(After(s, es[..|es| - 1]), es[|es| - 1])
  {
    hide Allowed;
    forall i | 0 <= i < |es| - 1
      ensures Allowed(After(s, es[..|es| - 1][..i]), es[i])
    {
      assert es[..|es| - 1][..i] == es[..i];
    }
  }

  // After any calls, every admitted job is in exactly one place: in the queue, on the
  // processor or finished.
  lemma {:induction false} NoJobLost(s: State, es: seq<Event>)
    requires Inv(s) && Run(s, es)
    ensures Inv(After(s, es)) && After(s, es).scheme == s.scheme
    decreases es
  {
    if es != [] {
      SubRun(s, es);
      hide Inv, Allowed, Apply, Run;
      NoJobLost(s, es[..|es| - 1]);
      StepKeeps(After(s, es[..|es| - 1]), es[|es| - 1]);
    }
  }

  // The processor idles after an expired quantum only when no job is waiting.
  lemma NeverIdlesInVain(s: State, time: real, pick: Option<Id>)
    requires Inv(s) && Allowed(s, Expire(time, pick))
    ensures Apply(s, Expire(time, pick)).running == None <==> s.queue == {} && s.running == None
  {
  }

  // ---------- who runs next ----------

  // j goes before every other job of the set, by its scheme's key and then by arrival.
  ghost predicate Foremost(scheme: Scheme, info: map<Id, Info>, jobs: set<Id>, j: Id) {
    && j in jobs && jobs <= info.Keys
    && forall k | k in jobs ::
         Key(scheme, info[j]) < Key(scheme, info[k])
         || (Key(scheme, info[j]) == Key(scheme, info[k]) && info[j].arrival <= info[k].arrival)
  }

  // The jobs that compete for the processor when a quantum expires: those in the queue and,
  // under a preemptive scheme, the one that has been running.
  ghost function Competing(s: State): set<Id> {
    s.queue + if s.scheme == PPRI || s.scheme == PSRTF || s.scheme == RR then s.OnCpu() else {}
  }

  // Without preemption a running job stays. Otherwise the foremost of the competing jobs
  // runs next, by what is on record about them after the call, and any such job may be the
  // one; the processor is idle only if there is none.
  lemma ExpiryExactly(s: State, time: real, pick: Option<Id>)
    requires Inv(s) && time >= 0.0
    ensures var s', jobs := Apply(s, Expire(time, pick)), Competing(s);
            var stays := s.running.Some? && (s.scheme == FCFS || s.scheme == PRI || s.scheme == SJF);
            && (Allowed(s, Expire(time, pick)) <==>
                  if stays || jobs == {} then pick == None
                  else pick.Some? && Foremost(s.scheme, s'.info, jobs, pick.value))
            && (Allowed(s, Expire(time, pick)) ==>
                  if stays then s'.running == s.running && s'.queue == s.queue
                  else if jobs == {} then s'.running == None && s'.queue == {}
                  else s'.running.Some? && Foremost(s.scheme, s'.info, jobs, s'.running.value)
                       && s'.queue == jobs - {s'.running.value})
  {
    var m := Evicted(s, time);
    EvictedKeeps(s, time);
    EvictedCompetes(s, time);
    if pick.Some? {
      LeastIsForemost(m, pick.value);
    }
    hide Inv, Evicted, Least, Foremost, Competing;
  }

  lemma EvictedCompetes(s: State, time: real)
    requires Inv(s)
    ensures var m := Evicted(s, time);
            && m.scheme == s.scheme
            && if s.running.Some? && (s.scheme == FCFS || s.scheme == PRI || s.scheme == SJF)
               then m.running == s.running && m.queue == s.queue
               else m.running == None && m.queue == Competing(s)
  {
    var m := Evicted(s, time);
    if s.running == None {
      assert s.queue + {} == s.queue;
    }
  }

  lemma LeastIsForemost(s: State, j: Id)
    requires Inv(s)
    ensures Least(s.scheme, s.info, s.queue, j) <==> Foremost(s.scheme, s.info, s.queue, j)
  {
    assert s.queue <= s.info.Keys;
    hide Inv;
    forall k | k in s.queue && j in s.info
      ensures Compare(s.scheme, s.info[j], s.info[k]) <= 0
              <==> Key(s.scheme, s.info[j]) < Key(s.scheme, s.info[k])
                   || (Key(s.scheme, s.info[j]) == Key(s.scheme, s.info[k]) && s.info[j].arrival <= s.info[k].arrival)
    {
      ComparersOrder(s.scheme, s.info[j], s.info[k], s.info[k]);
    }
    hide Compare, Key;
  }

  // ---------- what is on record about a job ----------

  // The times at which quanta expired while j was on the processor.
  function Quanta(scheme: Scheme, es: seq<Event>, j: Id): seq<real> {
    if es == [] then []
    else
      var n := |es| - 1;
      Quanta(scheme, es[..n], j)
      + if es[n].Expire? && After(Initial(scheme), es[..n]).running == Some(j) then [es[n].time] else []
  }

  // The start time after those quanta: one before the first, where -1 stands for none yet,
  // so that a quantum that expires at 0 is not seen to have started the job.
  function StartAfter(ts: seq<real>): real {
    if ts == [] then -1.0
    else if StartAfter(ts[..|ts| - 1]) == -1.0 then ts[|ts| - 1] - 1.0
    else StartAfter(ts[..|ts| - 1])
  }

  // What they take off the remaining time: every quantum is counted from the first start.
  function Charged(ts: seq<real>): real {
    if ts == [] then 0.0 else Charged(ts[..|ts| - 1]) + ts[|ts| - 1] - StartAfter(ts[..|ts| - 1])
  }

  // So two quanta of length 1, the first from t - 1 to t, do not take 2 off the remaining
  // time but t + 3: the first is counted from -1 and the second from the first start.
  lemma OverCharged(t: real)
    requires t > 0.0
    ensures StartAfter([t]) == t - 1.0 == StartAfter([t, t + 1.0])
    ensures Charged([t]) == t + 1.0 && Charged([t, t + 1.0]) == t + 3.0
  {
    assert [t][..0] == [] && [t, t + 1.0][..1] == [t];
  }

  // The call that admitted j, by its record.
  ghost predicate AdmittedAs(e: Event, j: Id, i: Info) {
    e.NewJob? && e.j == j && i.arrival == e.time.Floor && i.priority == e.priority && i.runningTime == e.runningTime
  }

  ghost predicate OnRecord(scheme: Scheme, es: seq<Event>, j: Id, i: Info) {
    var ts := Quanta(scheme, es, j);
    && (exists k :: 0 <= k < |es| && AdmittedAs(es[k], j, i))
    && i.rrTime == (if ts == [] then -1.0 else ts[|ts| - 1])
    && i.startTime == StartAfter(ts)
    && i.remainingTime == i.runningTime - Charged(ts)
  }

  // After any calls the record of every job is what its admission and its quanta make it.
  lemma {:induction false} RecordsAreTrue(scheme: Scheme, es: seq<Event>)
    requires Run(Initial(scheme), es)
    ensures forall j | j in After(Initial(scheme), es).info ::
              OnRecord(scheme, es, j, After(Initial(scheme), es).info[j])
    ensures forall j | j !in After(Initial(scheme), es).info :: Quanta(scheme, es, j) == []
    decreases es
  {
    if es != [] {
      var n := |es| - 1;
      var s, e := After(Initial(scheme), es[..n]), es[n];
      SubRun(Initial(scheme), es);
      RecordsAreTrue(scheme, es[..n]);
      assert Inv(Initial(scheme));
      NoJobLost(Initial(scheme), es[..n]);
      hide Run, After;
      forall j
        ensures j in Apply(s, e).info ==> OnRecord(scheme, es, j, Apply(s, e).info[j])
        ensures j !in Apply(s, e).info ==> Quanta(scheme, es, j) == []
      {
        RecordStep(scheme, es, s, e, j);
      }
    }
  }

  lemma RecordStep(scheme: Scheme, es: seq<Event>, s: State, e: Event, j: Id)
    requires es != [] && e == es[|es| - 1] && s == After(Initial(scheme), es[..|es| - 1])
    requires Inv(s) && Allowed(s, e)
    requires if j in s.info then OnRecord(scheme, es[..|es| - 1], j, s.info[j])
             else Quanta(scheme, es[..|es| - 1], j) == []
    ensures j in Apply(s, e).info ==> OnRecord(scheme, es, j, Apply(s, e).info[j])
    ensures j !in Apply(s, e).info ==> Quanta(scheme, es, j) == []
  {
    assert s.running == Some(j) ==> j in s.info;
    hide Inv, After, Run, Allowed, OnRecord;
    InfoAfter(s, e, j);
    if e.NewJob? && e.j == j {
      JustAdmitted(scheme, es, s, e, j);
    } else if j in s.info {
      hide Apply, Evicted;
      RecordGoesOn(scheme, es, s, e, j, s.info[j], Apply(s, e).info[j]);
    } else {
      hide Apply, Evicted;
    }
  }

  // What a call does to the record of one job.
  lemma InfoAfter(s: State, e: Event, j: Id)
    requires s.running == Some(j) ==> j in s.info
    ensures j in Apply(s, e).info <==> j in s.info || (e.NewJob? && e.j == j)
    ensures j in s.info && !(e.NewJob? && e.j == j) ==>
              var i, i' := s.info[j], Apply(s, e).info[j];
              if e.Expire? && s.running == Some(j) then
                && i'.arrival == i.arrival && i'.priority == i.priority && i'.runningTime == i.runningTime
                && i'.rrTime == e.time && i'.remainingTime == i.remainingTime - (e.time - i.startTime)
                && i'.startTime == if i.startTime == -1.0 then e.time - 1.0 else i.startTime
              else i' == i
  {
  }

  lemma JustAdmitted(scheme: Scheme, es: seq<Event>, s: State, e: Event, j: Id)
    requires es != [] && e == es[|es| - 1] && e.NewJob? && e.j == j
    requires Quanta(scheme, es[..|es| - 1], j) == []
    ensures OnRecord(scheme, es, j, Apply(s, e).info[j])
  {
    assert AdmittedAs(es[|es| - 1], j, Apply(s, e).info[j]);
  }

  lemma RecordGoesOn(scheme: Scheme, es: seq<Event>, s: State, e: Event, j: Id, i: Info, i': Info)
    requires es != [] && e == es[|es| - 1] && s == After(Initial(scheme), es[..|es| - 1])
    requires !(e.NewJob? && e.j == j) && OnRecord(scheme, es[..|es| - 1], j, i)
    requires if e.Expire? && s.running == Some(j) then
               && i'.arrival == i.arrival && i'.priority == i.priority && i'.runningTime == i.runningTime
               && i'.rrTime == e.time && i'.remainingTime == i.remainingTime - (e.time - i.startTime)
               && i'.startTime == if i.startTime == -1.0 then e.time - 1.0 else i.startTime
             else i' == i
    ensures OnRecord(scheme, es, j, i')
  {
    hide After;
    var n := |es| - 1;
    var ts, ts' := Quanta(scheme, es[..n], j), Quanta(scheme, es, j);
    if e.Expire? && s.running == Some(j) {
      assert ts' == ts + [e.time] && ts'[..|ts|] == ts;
    } else {
      assert ts' == ts;
    }
    var k :| 0 <= k < n && AdmittedAs(es[..n][k], j, i);
    assert AdmittedAs(es[k], j, i');
  }

  // ---------- round robin is fair ----------

  // No job was stamped after the clock.
  ghost predicate Stamps(s: State) {
    s.clock >= -1.0 && forall j | j in s.info :: s.info[j].rrTime <= s.clock
  }

  // The times of expired quanta strictly increase.
  ghost predicate Timely(s: State, es: seq<Event>) {
    forall i | 0 <= i < |es| :: es[i].Expire? ==> es[i].time > After(s, es[..i]).clock
  }

  // So every state reached from the start meets what the fairness bound asks of a state.
  lemma {:induction false} ReachableStamps(scheme: Scheme, es: seq<Event>)
    requires Run(Initial(scheme), es) && Timely(Initial(scheme), es)
    ensures var s := After(Initial(scheme), es); Inv(s) && Stamps(s) && s.scheme == scheme
    decreases es
  {
    var s := Initial(scheme);
    assert Inv(s);
    NoJobLost(s, es);
    if es != [] {
      var n := |es| - 1;
      SubRun(s, es);
      TimelyPrefix(s, es);
      ReachableStamps(scheme, es[..n]);
      hide Allowed, Run;
      StampsStep(After(s, es[..n]), es[n]);
    }
  }

  lemma TimelyPrefix(s: State, es: seq<Event>)
    requires es != [] && Timely(s, es)
    ensures Timely(s, es[..|es| - 1])
  {
    hide After;
    var init := es[..|es| - 1];
    forall i | 0 <= i < |init|
      ensures init[i].Expire? ==> init[i].time > After(s, init[..i]).clock
    {
      assert init[..i] == es[..i];
    }
  }

  lemma StampsStep(s: State, e: Event)
    requires Stamps(s) && (e.Expire? ==> e.time > s.clock)
    ensures Stamps(Apply(s, e))
  {
  }

  // The queued jobs that go before j or tie with it.
  ghost function Ahead(s: State, j: Id): set<Id> {
    set k | k in s.queue && k != j && k in s.info && j in s.info && Compare(s.scheme, s.info[k], s.info[j]) <= 0
  }

  ghost predicate WaitsThroughout(s: State, es: seq<Event>, j: Id) {
    forall i | 0 <= i <= |es| :: j in After(s, es[..i]).queue
  }

  // What has left the queue since s, oldest first.
  ghost function Since(s: State, s': State): seq<Id> {
    if |s.dispatched| <= |s'.dispatched| then s'.dispatched[|s.dispatched|..] else []
  }

  // The job whose quantum expires now goes behind j: it is stamped later than j, or at the
  // same time after arriving later.
  ghost predicate Yields(s: State, time: real, j: Id) {
    s.running.Some? && s.running.value in s.info && j in s.info ==>
      var i, e := s.info[j], s.info[s.running.value];
      time > i.rrTime || (time == i.rrTime && e.arrival > i.arrival)
  }

  // What an expired quantum puts ahead of a waiting job, if anything, is its own job.
  lemma EvictedAhead(s: State, time: real, j: Id)
    requires Inv(s) && s.scheme == RR && j in s.queue
    ensures Yields(s, time, j) ==> Ahead(Evicted(s, time), j) == Ahead(s, j)
    ensures !Yields(s, time, j) ==>
              && s.running.Some? && s.running.value !in Ahead(s, j)
              && Ahead(Evicted(s, time), j) == Ahead(s, j) + {s.running.value}
  {
    var m := Evicted(s, time);
    if s.running.Some? {
      var e := s.running.value;
      EvictedQueue(s, time);
      assert Compare(RR, m.info[e], m.info[j]) <= 0 <==> !Yields(s, time, j);
      hide Inv, Evicted, Compare, Yields;
      forall k
        ensures k in Ahead(m, j) <==> k in Ahead(s, j) || (k == e && !Yields(s, time, j))
      {
        assert k in s.queue ==> m.info[k] == s.info[k];
      }
    } else {
      assert m.queue == s.queue && m.info == s.info;
    }
  }

  lemma EvictedQueue(s: State, time: real)
    requires Inv(s) && s.scheme == RR && s.running.Some?
    ensures var m, e := Evicted(s, time), s.running.value;
            && m.scheme == RR && e in s.info && m.info.Keys == s.info.Keys
            && (forall k | k in s.info && k != e :: m.info[k] == s.info[k])
            && e !in s.queue && m.queue == s.queue + {e} && m.queue <= m.info.Keys
  {
    assert Evicted(s, time).info.Keys == s.info.Keys;
  }

  // An expiring quantum puts no job ahead of a waiting one exactly when its job yields.
  lemma YieldsExactly(s: State, time: real, j: Id)
    requires Inv(s) && s.scheme == RR && j in s.queue
    ensures Ahead(Evicted(s, time), j) == Ahead(s, j) <==> Yields(s, time, j)
  {
    EvictedAhead(s, time, j);
    hide Inv, Ahead, Evicted, Yields;
  }

  lemma Evicts(s: State, j: Id, time: real)
    requires Inv(s) && s.scheme == RR && j in s.queue
    ensures var m := Evicted(s, time);
            && m.scheme == RR && m.running == None && j in m.queue
            && |Ahead(m, j)| == |Ahead(s, j)| + (if Yields(s, time, j) then 0 else 1)
            && m.dispatched == s.dispatched && m.arrived == s.arrived && m.info.Keys == s.info.Keys
  {
    EvictedAhead(s, time, j);
    hide Ahead, Stamped, Yields;
    assert Evicted(s, time).info.Keys == s.info.Keys;
  }

  lemma Picks(s: State, j: Id, pick: Option<Id>)
    requires Inv(s) && s.scheme == RR && j in s.queue && s.running == None && MayPick(s, pick) && pick != Some(j)
    ensures pick.Some? && pick.value in Ahead(s, j)
    ensures Ahead(Picked(s, pick), j) == Ahead(s, j) - {pick.value}
  {
    assert Least(s.scheme, s.info, s.queue, pick.value);
  }

  // How many jobs a call puts ahead of j: a job that arrives there, and the job whose quantum
  // expires unless it yields.
  ghost function Gain(s: State, e: Event, j: Id): nat {
    match e
    case NewJob(k, _, _, _) => if k in Ahead(Apply(s, e), j) then 1 else 0
    case Expire(time, _) => if Yields(s, time, j) then 0 else 1
    case Finish(_) => 0
  }

  ghost function Gains(s: State, es: seq<Event>, j: Id): nat {
    if es == [] then 0
    else
      var n := |es| - 1;
      Gains(s, es[..n], j) + Gain(After(s, es[..n]), es[n], j)
  }

  // One call, seen by a job that keeps waiting: a dispatch uses up a job ahead of it.
  lemma WaitStep(s: State, e: Event, j: Id)
    requires Inv(s) && s.scheme == RR && Allowed(s, e)
    requires j in s.queue && j in Apply(s, e).queue
    ensures |Apply(s, e).dispatched| + |Ahead(Apply(s, e), j)| == |s.dispatched| + |Ahead(s, j)| + Gain(s, e, j)
  {
    match e
    case NewJob(_, _, _, _) =>
      ArrivalStep(s, e, j);
    case Expire(time, pick) =>
      EvictedKeeps(s, time);
      Evicts(s, j, time);
      hide Evicted, Inv, Ahead, Compare, Least, Yields;
      Picks(Evicted(s, time), j, pick);
    case Finish(_) =>
      assert Ahead(Apply(s, e), j) == Ahead(s, j);
  }

  lemma ArrivalStep(s: State, e: Event, j: Id)
    requires Inv(s) && e.NewJob? && Allowed(s, e) && j in s.queue
    ensures Apply(s, e).dispatched == s.dispatched
    ensures |Ahead(Apply(s, e), j)| == |Ahead(s, j)| + Gain(s, e, j)
  {
    ArrivalAhead(s, e, j);
    hide Inv, Ahead, Fresh;
    var s' := Apply(s, e);
    if e.j in Ahead(s', j) {
      assert Ahead(s', j) == Ahead(s, j) + {e.j};
    } else {
      assert Ahead(s', j) == Ahead(s, j);
    }
  }

  lemma ArrivalAhead(s: State, e: Event, j: Id)
    requires Inv(s) && e.NewJob? && Allowed(s, e) && j in s.queue
    ensures e.j !in Ahead(s, j)
    ensures forall k | k != e.j :: k in Ahead(Apply(s, e), j) <==> k in Ahead(s, j)
  {
    hide Compare, Fresh;
    assert e.j != j;
    forall k | k != e.j
      ensures k in Ahead(Apply(s, e), j) <==> k in Ahead(s, j)
    {
      assert k in Apply(s, e).queue <==> k in s.queue;
    }
  }

  // Fairness and starvation in one equation: while a job waits, what is dispatched is what
  // was ahead of it plus what was put there meanwhile, less what is still there.
  lemma {:induction false} WaitAccounts(s: State, es: seq<Event>, j: Id)
    requires Inv(s) && s.scheme == RR && Run(s, es) && WaitsThroughout(s, es, j)
    ensures var s' := After(s, es);
            |s'.dispatched| + |Ahead(s', j)| == |s.dispatched| + |Ahead(s, j)| + Gains(s, es, j)
    decreases es
  {
    if es != [] {
      var n := |es| - 1;
      SubRun(s, es);
      StillWaits(s, es, j);
      WaitAccounts(s, es[..n], j);
      NoJobLost(s, es[..n]);
      hide Inv, Run, Allowed, Apply, Ahead, WaitsThroughout;
      WaitStep(After(s, es[..n]), es[n], j);
    }
  }

  lemma StillWaits(s: State, es: seq<Event>, j: Id)
    requires es != [] && WaitsThroughout(s, es, j)
    ensures WaitsThroughout(s, es[..|es| - 1], j)
    ensures j in After(s, es).queue && j in After(s, es[..|es| - 1]).queue
  {
    hide After;
    var init := es[..|es| - 1];
    forall i | 0 <= i <= |init|
      ensures j in After(s, init[..i]).queue
    {
      assert init[..i] == es[..i];
    }
    assert es[..|es|] == es;
  }

  ghost predicate NoRepeats(q: seq<Id>) {
    forall i, k | 0 <= i < k < |q| :: q[i] != q[k]
  }

  // Whenever a quantum expires, its job yields to j.
  ghost predicate FairTimes(s: State, es: seq<Event>, j: Id) {
    forall i | 0 <= i < |es| && es[i].Expire? :: Yields(After(s, es[..i]), es[i].time, j)
  }

  lemma FairPrefix(s: State, es: seq<Event>, j: Id)
    requires es != [] && FairTimes(s, es, j)
    ensures FairTimes(s, es[..|es| - 1], j)
    ensures es[|es| - 1].Expire? ==> Yields(After(s, es[..|es| - 1]), es[|es| - 1].time, j)
  {
    hide After, Yields;
    var init := es[..|es| - 1];
    forall i | 0 <= i < |init| && init[i].Expire?
      ensures Yields(After(s, init[..i]), init[i].time, j)
    {
      assert init[..i] == es[..i];
    }
  }

  // With fair times only arrivals count.
  lemma {:induction false} FairGains(s: State, es: seq<Event>, j: Id)
    requires FairTimes(s, es, j)
    ensures Gains(s, es, j) + |s.arrived| <= |After(s, es).arrived|
    decreases es
  {
    if es != [] {
      FairPrefix(s, es, j);
      FairGains(s, es[..|es| - 1], j);
      ArrivedAfter(After(s, es[..|es| - 1]), es[|es| - 1]);
      hide Ahead, Yields, Apply;
    }
  }

  lemma ArrivedAfter(s: State, e: Event)
    ensures |Apply(s, e).arrived| == |s.arrived| + if e.NewJob? then 1 else 0
  {
  }

  // While a job waits and is yielded to, at most as many jobs are dispatched as there were
  // jobs ahead of it plus jobs that arrive meanwhile, and none of them twice.
  lemma RoundRobinIsFair(s: State, es: seq<Event>, j: Id)
    requires Inv(s) && s.scheme == RR
    requires Run(s, es) && FairTimes(s, es, j) && WaitsThroughout(s, es, j)
    ensures var s' := After(s, es);
            && s.dispatched <= s'.dispatched && |s.arrived| <= |s'.arrived|
            && |Since(s, s')| + |Ahead(s', j)| <= |Ahead(s, j)| + |s'.arrived| - |s.arrived|
            && NoRepeats(Since(s, s')) && forall k | k in Since(s, s') :: k in s'.info && k !in Ahead(s', j)
  {
    WaitAccounts(s, es, j);
    FairGains(s, es, j);
    NoneTwice(s, es, j);
  }

  // What has been dispatched is no longer ahead of j, so it is not dispatched again.
  lemma {:induction false} NoneTwice(s: State, es: seq<Event>, j: Id)
    requires Inv(s) && s.scheme == RR
    requires Run(s, es) && FairTimes(s, es, j) && WaitsThroughout(s, es, j)
    ensures var s' := After(s, es);
            && s.dispatched <= s'.dispatched && NoRepeats(Since(s, s'))
            && forall k | k in Since(s, s') :: k in s'.info && k !in Ahead(s', j)
    decreases es
  {
    if es != [] {
      var n := |es| - 1;
      SubRun(s, es);
      StillWaits(s, es, j);
      FairPrefix(s, es, j);
      NoneTwice(s, es[..n], j);
      NoJobLost(s, es[..n]);
      hide Run, FairTimes, WaitsThroughout;
      NotAgain(s, After(s, es[..n]), es[n], j);
    }
  }

  // Strictly increasing times are fair to everybody.
  lemma {:induction false} TimelyIsFair(s: State, es: seq<Event>, j: Id)
    requires Inv(s) && Stamps(s) && Run(s, es) && Timely(s, es)
    ensures Stamps(After(s, es)) && FairTimes(s, es, j)
    decreases es
  {
    if es != [] {
      var n := |es| - 1;
      SubRun(s, es);
      TimelyPrefix(s, es);
      TimelyIsFair(s, es[..n], j);
      StampsStep(After(s, es[..n]), es[n]);
      LastYields(s, es, j);
    }
  }

  lemma LastYields(s: State, es: seq<Event>, j: Id)
    requires es != [] && Timely(s, es) && Stamps(After(s, es[..|es| - 1])) && FairTimes(s, es[..|es| - 1], j)
    ensures FairTimes(s, es, j)
  {
    hide After;
    var init := es[..|es| - 1];
    forall i | 0 <= i < |es| && es[i].Expire?
      ensures Yields(After(s, es[..i]), es[i].time, j)
    {
      assert i < |init| ==> init[..i] == es[..i] && init[i] == es[i];
    }
  }

  lemma NotAgain(s: State, m: State, e: Event, j: Id)
    requires Inv(m) && m.scheme == RR && Allowed(m, e) && (e.Expire? ==> Yields(m, e.time, j))
    requires j in m.queue && j in Apply(m, e).queue
    requires s.dispatched <= m.dispatched
    requires NoRepeats(Since(s, m)) && forall k | k in Since(s, m) :: k in m.info && k !in Ahead(m, j)
    ensures var s' := Apply(m, e);
            && s.dispatched <= s'.dispatched && NoRepeats(Since(s, s'))
            && forall k | k in Since(s, s') :: k in s'.info && k !in Ahead(s', j)
  {
    var s' := Apply(m, e);
    match e
    case NewJob(_, _, _, _) =>
      ArrivalAhead(m, e, j);
      hide Inv, Ahead, Fresh;
      assert Since(s, s') == Since(s, m);
    case Expire(time, pick) =>
      EvictedKeeps(m, time);
      Evicts(m, j, time);
      EvictedAhead(m, time, j);
      Grows(s, m, time, pick);
      hide Ahead, Evicted, Inv, Since, Yields, Least;
      Picks(Evicted(m, time), j, pick);
      OneMore(Since(s, m), Ahead(m, j), pick.value);
      assert pick.value in m.info by { AheadIsKnown(m, j, pick.value); }
    case Finish(_) =>
      assert Since(s, s') == Since(s, m) && Ahead(s', j) == Ahead(m, j);
  }

  lemma Grows(s: State, m: State, time: real, pick: Option<Id>)
    requires s.dispatched <= m.dispatched && pick.Some?
    ensures var s' := Picked(Evicted(m, time), pick);
            && s.dispatched <= s'.dispatched && Since(s, s') == Since(s, m) + [pick.value]
            && s'.arrived == m.arrived && s'.info.Keys == m.info.Keys
  {
    hide Stamped;
    assert Evicted(m, time).info.Keys == m.info.Keys;
  }

  lemma AheadIsKnown(s: State, j: Id, k: Id)
    requires k in Ahead(s, j)
    ensures k in s.info
  {
  }

  lemma OneMore(q: seq<Id>, ahead: set<Id>, k: Id)
    requires NoRepeats(q) && k in ahead && forall x | x in q :: x !in ahead
    ensures NoRepeats(q + [k]) && forall x | x in q + [k] :: x !in ahead - {k}
  {
  }

  // ---------- and starves where a job does not yield ----------

  // e runs, j is all that waits, and e does not yield to j at this time.
  ghost predicate Starving(s: State, e: Id, j: Id, time: real) {
    && Inv(s) && s.scheme == RR && s.running == Some(e) && s.queue == {j}
    && s.info[j].rrTime == time && time >= 0.0 && s.info[e].arrival < s.info[j].arrival
  }

  // At a repeated time the earlier arrival is the only job that can be dispatched, and j is
  // left where it was.
  lemma RepeatedTimeStarves(s: State, e: Id, j: Id, time: real, pick: Option<Id>)
    requires Starving(s, e, j, time)
    ensures !Yields(s, time, j)
    ensures Allowed(s, Expire(time, pick)) <==> pick == Some(e)
    ensures Starving(Apply(s, Expire(time, Some(e))), e, j, time)
    ensures Apply(s, Expire(time, Some(e))).dispatched == s.dispatched + [e]
  {
    var m := Evicted(s, time);
    assert m.queue == {j, e} && m.info[j] == s.info[j];
    assert Compare(RR, m.info[e], m.info[j]) < 0;
    assert Least(RR, m.info, m.queue, e);
    assert m.queue - {e} == {j};
    StepKeeps(s, Expire(time, Some(e)));
  }

  // So there is no bound at all: the quantum can expire n times at that time, for every n.
  lemma {:induction false} StarvesForever(s: State, e: Id, j: Id, time: real, n: nat) returns (es: seq<Event>)
    requires Starving(s, e, j, time)
    ensures |es| == n && Run(s, es) && Starving(After(s, es), e, j, time)
    ensures Ahead(s, j) == {} && |After(s, es).arrived| == |s.arrived|
    ensures |After(s, es).dispatched| == |s.dispatched| + n
  {
    es := [];
    if n > 0 {
      es := StarvesForever(s, e, j, time, n - 1);
      var m := After(s, es);
      RepeatedTimeStarves(m, e, j, time, Some(e));
      hide Starving, Allowed, Run;
      MoreRun(s, es, Expire(time, Some(e)));
      es := es + [Expire(time, Some(e))];
    }
  }

  lemma MoreRun(s: State, es: seq<Event>, e: Event)
    requires Run(s, es) && Allowed(After(s, es), e)
    ensures Run(s, es + [e]) && After(s, es + [e]) == Apply(After(s, es), e)
  {
    hide Allowed, Apply;
    var fs := es + [e];
    assert fs[..|es|] == es;
    forall i | 0 <= i < |fs|
      ensures Allowed(After(s, fs[..i]), fs[i])
    {
      assert i < |es| ==> fs[..i] == es[..i];
    }
  }

  // Jobs 1 and 2 arrived at times 0 and 1.
  ghost predicate Two(s: State, queue: set<Id>, running: Option<Id>, rr1: real, rr2: real) {
    && Inv(s) && s.scheme == RR && s.queue == queue && s.running == running
    && s.info.Keys == {1, 2} && s.info[1].arrival == 0 && s.info[2].arrival == 1
    && s.info[1].rrTime == rr1 && s.info[2].rrTime == rr2
  }

  // Two jobs and three quanta are enough to get there.
  lemma StarvationIsReachable() returns (es: seq<Event>, s: State)
    ensures Run(Initial(RR), es) && s == After(Initial(RR), es)
    ensures Starving(s, 1, 2, 3.0)
  {
    var s0 := Initial(RR);
    es, s := [], s0;
    es, s := Then(s0, es, s, NewJob(1, 0.0, 0, 5.0));
    es, s := Then(s0, es, s, NewJob(2, 1.0, 0, 5.0));
    assert Inv(s0);
    NoJobLost(s0, es);
    TwoJobs(s);
    hide Two, Run, Allowed, Apply, Starving;
    FirstQuantum(s, 1.0);
    es, s := Then(s0, es, s, Expire(1.0, Some(1)));
    SecondQuantum(s, 2.0);
    es, s := Then(s0, es, s, Expire(2.0, Some(2)));
    ThirdQuantum(s, 3.0);
    es, s := Then(s0, es, s, Expire(3.0, Some(1)));
    TwoStarve(s, 3.0);
  }

  lemma TwoJobs(s: State)
    requires s == Apply(Apply(Initial(RR), NewJob(1, 0.0, 0, 5.0)), NewJob(2, 1.0, 0, 5.0)) && Inv(s)
    ensures Two(s, {1, 2}, None, -1.0, -1.0)
  {
    assert s.info.Keys == {1, 2};
    assert s.info[1] == Fresh(0.0, 0, 5.0) && s.info[2] == Fresh(1.0, 0, 5.0);
    assert 0.0.Floor == 0 && 1.0.Floor == 1;
  }

  lemma FirstQuantum(s: State, time: real)
    requires Two(s, {1, 2}, None, -1.0, -1.0) && time >= 0.0
    ensures Allowed(s, Expire(time, Some(1))) && Two(Apply(s, Expire(time, Some(1))), {2}, Some(1), -1.0, -1.0)
  {
    assert Least(RR, s.info, s.queue, 1);
    StepKeeps(s, Expire(time, Some(1)));
    assert {1, 2} - {1} == {2};
  }

  lemma SecondQuantum(s: State, time: real)
    requires Two(s, {2}, Some(1), -1.0, -1.0) && time >= 0.0
    ensures Allowed(s, Expire(time, Some(2))) && Two(Apply(s, Expire(time, Some(2))), {1}, Some(2), time, -1.0)
  {
    var m := Evicted(s, time);
    assert m.queue == {1, 2} && m.info.Keys == {1, 2} && m.info[2] == s.info[2];
    assert Least(RR, m.info, m.queue, 2);
    StepKeeps(s, Expire(time, Some(2)));
    assert {1, 2} - {2} == {1};
  }

  lemma ThirdQuantum(s: State, time: real)
    requires Two(s, {1}, Some(2), 2.0, -1.0) && time > 2.0
    ensures Allowed(s, Expire(time, Some(1))) && Two(Apply(s, Expire(time, Some(1))), {2}, Some(1), 2.0, time)
  {
    var m := Evicted(s, time);
    assert m.queue == {1, 2} && m.info.Keys == {1, 2} && m.info[1] == s.info[1];
    assert Least(RR, m.info, m.queue, 1);
    StepKeeps(s, Expire(time, Some(1)));
    assert {1, 2} - {1} == {2};
  }

  lemma TwoStarve(s: State, time: real)
    requires Two(s, {2}, Some(1), 2.0, time) && time >= 0.0
    ensures Starving(s, 1, 2, time)
  {
  }

  lemma Then(s0: State, es: seq<Event>, s: State, e: Event) returns (es': seq<Event>, s': State)
    requires Run(s0, es) && s == After(s0, es) && Allowed(s, e)
    ensures Run(s0, es') && s' == After(s0, es') == Apply(s, e)
  {
    MoreRun(s0, es, e);
    es', s' := es + [e], Apply(s, e);
  }

  // ---------- the library ----------

  class Scheduler {
    const scheme: Scheme
    var info: map<Id, Info>
    var queue: set<Id>
    var count: nat
    var totalWaiting: real
    var totalTurnaround: real
    var totalResponse: real
    ghost var world: State

    ghost predicate Valid()
      reads this
    {
      && Inv(world)
      && scheme == world.scheme && queue == world.queue && count == |world.arrived|
      && (forall j | j in info :: j in world.info && info[j] == world.info[j])
      && (forall j | j in world.queue + world.OnCpu() :: j in info)
    }

    constructor StartUp(scheme: Scheme)
      ensures Valid() && world == Initial(scheme)
    {
      this.scheme := scheme;
      info, queue, count, totalWaiting, totalTurnaround, totalResponse := map[], {}, 0, 0.0, 0.0, 0.0;
      world := Initial(scheme);
    }

    method NewJob(j: Id, time: real, priority: int, runningTime: real)
      requires Valid() && Allowed(world, Event.NewJob(j, time, priority, runningTime))
      modifies this
      ensures Valid() && world == Apply(old(world), Event.NewJob(j, time, priority, runningTime))
      ensures totalWaiting == old(totalWaiting) && totalTurnaround == old(totalTurnaround)
      ensures totalResponse == old(totalResponse)
    {
      hide Places, Logged;
      assert |world.arrived| == |Apply(world, Event.NewJob(j, time, priority, runningTime)).arrived| - 1;
      var temp := Info(time.Floor, priority, -1.0, runningTime, runningTime, -1.0);
      info := info[j := temp];
      queue := queue + {j};
      count := count + 1;
      StepKeeps(world, Event.NewJob(j, time, priority, runningTime));
      world := Apply(world, Event.NewJob(j, time, priority, runningTime));
    }

    // `pick` is what the priority queue gives when this call polls it.
    method QuantumExpired(evicted: Option<Id>, time: real, pick: Option<Id>) returns (next: Option<Id>)
      requires Valid() && evicted == world.running && Allowed(world, Expire(time, pick))
      modifies this
      ensures Valid() && world == Apply(old(world), Expire(time, pick)) && next == world.running
      ensures totalWaiting == old(totalWaiting) && totalTurnaround == old(totalTurnaround)
      ensures totalResponse == old(totalResponse)
    {
      hide Inv, Compare, Stamps;
      StepKeeps(world, Expire(time, pick));
      if evicted == None {
        next := pick;
        queue := if pick.Some? then queue - {pick.value} else queue;
      } else {
        var j := evicted.value;
        var jInfo := info[j];
        jInfo := jInfo.(remainingTime := jInfo.remainingTime - (time - jInfo.startTime), rrTime := time);
        if jInfo.startTime == -1.0 {
          jInfo := jInfo.(startTime := time - 1.0);
        }
        info := info[j := jInfo];
        next := evicted;
        if scheme == PPRI || scheme == PSRTF || scheme == RR {
          queue := queue + {j};
          queue := if pick.Some? then queue - {pick.value} else queue;
          next := pick;
        }
      }
      world := Apply(world, Expire(time, pick));
    }

    method JobFinished(done: Id, time: real)
      requires Valid() && Allowed(world, Finish(done))
      modifies this
      ensures Valid() && world == Apply(old(world), Finish(done))
      ensures var i := old(world.info)[done];
              && totalTurnaround == old(totalTurnaround) + (time - i.arrival as real)
              // turnaround is waiting plus running
              && totalTurnaround - totalWaiting == old(totalTurnaround - totalWaiting) + i.runningTime
              && totalResponse == old(totalResponse) + (i.startTime - i.arrival as real)
    {
      hide Logged;
      StepKeeps(world, Finish(done));
      var temp := info[done];
      totalTurnaround := totalTurnaround + (time - temp.arrival as real);
      totalWaiting := totalWaiting + (time - temp.arrival as real - temp.runningTime);
      totalResponse := totalResponse + (temp.startTime - temp.arrival as real);
      info := info - {done};
      world := Apply(world, Finish(done));
    }
  }
}
