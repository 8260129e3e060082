/** The ETA worker: one read collects the trips whose stage has no prediction, then each is predicted and saved. */
module EtaWorker {
  import opened Prelude
  import opened Delivery
  import DeliveryStore
  import R = DeliveryRuns

  datatype Job = Job(trip: Id, stage: Stage)

  /** What the model service and the save transaction answer for one job. */
  datatype Reply = Reply(seconds: Option<int>, at: int, commits: bool)

  const BATCH := 50

  /** The stage a trip is in; an assigned trip counts as confirmed. */
  function StageOf(status: Status): Stage {
    match status
    case Assembling => AtStore
    case Delivering => OnTheWay
    case _ => Confirmed
  }

  ghost predicate Wanting(s: Tables, trip: Id) {
    && trip in s.trips && !Terminal(s.trips[trip].status) && s.trips[trip].courier in s.couriers
    && FindPrediction(s.predictions, trip, StageOf(s.trips[trip].status)).None?
  }

  /** A result of the worker's query: the longest assigned wanting trips, at most fifty. */
  ghost predicate Collected(s: Tables, jobs: seq<Job>) {
    && |jobs| <= BATCH
    && (forall i :: 0 <= i < |jobs| ==> Wanting(s, jobs[i].trip) && jobs[i].stage == StageOf(s.trips[jobs[i].trip].status))
    && (forall i, j :: 0 <= i < j < |jobs| ==> jobs[i].trip != jobs[j].trip && s.trips[jobs[i].trip].assignedAt <= s.trips[jobs[j].trip].assignedAt)
    && (|jobs| < BATCH ==> forall t :: Wanting(s, t) ==> exists i :: 0 <= i < |jobs| && jobs[i].trip == t)
  }

  /** The saves of a batch: a failed prediction is skipped. */
  function SavesOf(jobs: seq<Job>, replies: seq<Reply>): seq<R.Act>
    requires |replies| == |jobs|
  {
    if jobs == [] then []
    else
      var n := |jobs| - 1;
      SavesOf(jobs[..n], replies[..n]) + SaveOf(jobs[n], replies[n])
  }

  /** What one job does to the tables. */
  ghost function JobTx(s: Tables, job: Job, reply: Reply): (Tables, Outcome) {
    if reply.seconds.None? then (s, Done) else SaveTx(s, job.trip, job.stage, reply.seconds.value, reply.at, reply.commits)
  }

  ghost function AfterJobs(s: Tables, jobs: seq<Job>, replies: seq<Reply>, n: nat): Tables
    requires n <= |jobs| == |replies|
  {
    if n == 0 then s else JobTx(AfterJobs(s, jobs, replies, n - 1), jobs[n - 1], replies[n - 1]).0
  }

  /** Prediction, then save: a failed prediction is passed over. */
  method PredictOne(db: DeliveryStore.DeliveryDb, job: Job, reply: Reply) returns (ok: bool)
    modifies db
    ensures db.View() == JobTx(old(db.View()), job, reply).0
    ensures ok <==> !JobTx(old(db.View()), job, reply).1.Faulted?
  {
    if reply.seconds.None? {
      return true;
    }
    var outcome := db.Save(job.trip, job.stage, reply.seconds.value, reply.at, reply.commits);
    return !outcome.Faulted?;
  }

  /** The job loop of `predictMissing`: a failed save ends the batch. */
  method PredictMissing(db: DeliveryStore.DeliveryDb, jobs: seq<Job>, replies: seq<Reply>) returns (ok: bool, done: nat)
    requires |replies| == |jobs|
    modifies db
    ensures done <= |jobs| && (ok <==> done == |jobs|)
    ensures db.View() == AfterJobs(old(db.View()), jobs, replies, done)
    ensures !ok ==> JobTx(db.View(), jobs[done], replies[done]).1.Faulted?
  {
    done := 0;
    while done < |jobs|
      invariant done <= |jobs|
      invariant db.View() == AfterJobs(old(db.View()), jobs, replies, done)
    {
      ghost var before := db.View();
      ok := PredictOne(db, jobs[done], replies[done]);
      FaultedJobsChangeNothing(before, jobs[done], replies[done]);
      if !ok {
        return;
      }
      done := done + 1;
    }
    ok := true;
  }

  lemma FaultedJobsChangeNothing(s: Tables, job: Job, reply: Reply)
    ensures JobTx(s, job, reply).1.Faulted? ==> JobTx(s, job, reply).0 == s
  {
  }

  /** A batch is a run of saves, so it may be taken apart and mixed with any other transactions. */
  lemma {:induction false} BatchIsARun(s: Tables, jobs: seq<Job>, replies: seq<Reply>, n: nat)
    requires n <= |jobs| == |replies|
    ensures AfterJobs(s, jobs, replies, n) == R.Run(s, SavesOf(jobs[..n], replies[..n]))
  {
    if n > 0 {
      BatchIsARun(s, jobs, replies, n - 1);
      NextSave(jobs, replies, n - 1);
      NextJob(s, SavesOf(jobs[..n - 1], replies[..n - 1]), jobs[n - 1], replies[n - 1]);
    }
  }

  function SaveOf(job: Job, reply: Reply): seq<R.Act> {
    if reply.seconds.None? then [] else [R.Save(job.trip, job.stage, reply.seconds.value, reply.at, reply.commits)]
  }

  lemma NextJob(s: Tables, acts: seq<R.Act>, job: Job, reply: Reply)
    ensures R.Run(s, acts + SaveOf(job, reply)) == JobTx(R.Run(s, acts), job, reply).0
  {
    if reply.seconds.None? {
      assert acts + [] == acts;
    } else {
      RunNext(s, acts, R.Save(job.trip, job.stage, reply.seconds.value, reply.at, reply.commits));
    }
  }

  lemma NextSave(jobs: seq<Job>, replies: seq<Reply>, i: nat)
    requires i < |jobs| == |replies|
    ensures SavesOf(jobs[..i + 1], replies[..i + 1]) == SavesOf(jobs[..i], replies[..i]) + SaveOf(jobs[i], replies[i])
  {
    assert jobs[..i + 1][..i] == jobs[..i] && replies[..i + 1][..i] == replies[..i];
  }

  lemma RunNext(s: Tables, acts: seq<R.Act>, a: R.Act)
    ensures R.Run(s, acts + [a]) == R.Apply(R.Run(s, acts), a).0
  {
    assert (acts + [a])[..|acts|] == acts;
  }

  // ------------------------------------------------------------------ A batch without interference

  ghost predicate Predicted(s: Tables, job: Job) {
    FindPrediction(s.predictions, job.trip, job.stage).Some?
  }

  lemma {:induction false} FindAppend(predictions: seq<Prediction>, p: Prediction, trip: Id, stage: Stage)
    ensures FindPrediction(predictions + [p], trip, stage).Some? <==>
              FindPrediction(predictions, trip, stage).Some? || (p.trip == trip && p.stage == stage)
  {
    if predictions != [] {
      FindAppend(predictions[1..], p, trip, stage);
      assert (predictions + [p])[1..] == predictions[1..] + [p];
    }
  }

  /** Trips keep their status and couriers are untouched. */
  ghost predicate Undisturbed(s: Tables, t: Tables) {
    t.trips.Keys == s.trips.Keys && (forall u :: u in s.trips ==> t.trips[u].status == s.trips[u].status) && t.couriers == s.couriers
  }

  /** What a batch that meets no failure has done to the tables: exactly the jobs' stages have become predicted. */
  ghost predicate Did(s: Tables, t: Tables, jobs: seq<Job>, job: Job) {
    Undisturbed(s, t) && (Predicted(t, job) <==> Predicted(s, job) || job in jobs)
  }

  lemma {:induction false} BatchPredicts(s: Tables, jobs: seq<Job>, replies: seq<Reply>, n: nat, job: Job)
    requires n <= |jobs| == |replies| && forall i :: 0 <= i < |jobs| ==> jobs[i].trip in s.trips
    requires forall i :: 0 <= i < |replies| ==> replies[i].seconds.Some? && replies[i].seconds.value > 0 && replies[i].commits
    ensures Did(s, AfterJobs(s, jobs, replies, n), jobs[..n], job)
  {
    if n == 0 {
      assert Did(s, s, jobs[..0], job);
    } else {
      var mid := AfterJobs(s, jobs, replies, n - 1);
      BatchPredicts(s, jobs, replies, n - 1, job);
      OneMore(s, mid, jobs[..n - 1], jobs[n - 1], replies[n - 1], job);
      assert jobs[..n] == jobs[..n - 1] + [jobs[n - 1]];
      assert AfterJobs(s, jobs, replies, n) == JobTx(mid, jobs[n - 1], replies[n - 1]).0;
    }
  }

  lemma OneMore(s: Tables, mid: Tables, front: seq<Job>, next: Job, reply: Reply, job: Job)
    requires Did(s, mid, front, job)
    requires next.trip in s.trips && reply.seconds.Some? && reply.seconds.value > 0 && reply.commits
    ensures Did(s, JobTx(mid, next, reply).0, front + [next], job)
  {
    SavePredicts(mid, next, reply.seconds.value, reply.at, job);
  }

  lemma SavePredicts(s: Tables, saved: Job, seconds: int, at: int, job: Job)
    requires saved.trip in s.trips && seconds > 0
    ensures var t := SaveTx(s, saved.trip, saved.stage, seconds, at, true).0;
            (Predicted(t, job) <==> Predicted(s, job) || job == saved) && Undisturbed(s, t)
  {
    var t := SaveTx(s, saved.trip, saved.stage, seconds, at, true).0;
    if t != s {
      FindAppend(s.predictions, t.predictions[|s.predictions|], job.trip, job.stage);
    }
  }

  /** A short batch that meets no failure and no interference leaves no trip wanting. */
  lemma {:induction false} NothingIsLeftWanting(s: Tables, jobs: seq<Job>, replies: seq<Reply>, trip: Id)
    requires Collected(s, jobs) && |jobs| < 50 && |replies| == |jobs|
    requires forall i :: 0 <= i < |replies| ==> replies[i].seconds.Some? && replies[i].seconds.value > 0 && replies[i].commits
    requires trip in s.trips && s.trips[trip].courier in s.couriers && !Terminal(s.trips[trip].status)
    ensures var t := AfterJobs(s, jobs, replies, |jobs|);
            && trip in t.trips && t.trips[trip].status == s.trips[trip].status
            && exists p :: p in t.predictions && p.trip == trip
                           && p.stage == if t.trips[trip].status == Assigned then Confirmed
                                         else if t.trips[trip].status == Assembling then AtStore
                                         else OnTheWay
  {
    var job := Job(trip, StageOf(s.trips[trip].status));
    BatchPredicts(s, jobs, replies, |jobs|, job);
    assert jobs[..|jobs|] == jobs;
    if Wanting(s, trip) {
      var i :| 0 <= i < |jobs| && jobs[i].trip == trip;
      assert jobs[i] == job;
    }
    var found := FindPrediction(AfterJobs(s, jobs, replies, |jobs|).predictions, trip, job.stage);
    assert found.value in AfterJobs(s, jobs, replies, |jobs|).predictions;
  }
}
