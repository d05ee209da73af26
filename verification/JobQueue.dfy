/** The hosted job queue: claim, fence, finish and record as atomic transactions
    on the jobs and results tables. */
module JobQueue {
  import opened ChessTypes
  import opened Text

  datatype Status = Queued | Running | Done | Failed

  /** A row of the jobs table; its id is its index. */
  datatype Job = Job(run: string, kind: string, status: Status, worker: Option<string>, lease: Option<int>, attempts: nat)

  /** What a worker holds after a claim: the fields the fence compares. */
  datatype Claim = Claim(id: nat, worker: Option<string>, attempt: nat)

  /** The outcome of an evaluation, as recorded. */
  datatype Evaluation = Evaluation(verified: bool, mode: string, score: Option<real>)

  /** A row of the results table; its id is its index. */
  datatype Row = Row(run: string, job: nat, eval: Evaluation)

  datatype Db = Db(jobs: seq<Job>, results: seq<Row>)

  // ----- the transactions as functions -------------------------------------

  function Enqueued(db: Db, run: string, kind: string): Db {
    db.(jobs := db.jobs + [Job(run, kind, Queued, None, None, 0)])
  }

  /** Queued, or running with an expired lease. */
  predicate Claimable(j: Job, now: int) {
    j.status == Queued || (j.status == Running && j.lease.Some? && j.lease.value < now)
  }

  /** The first claimable job at or after n. */
  function OldestFrom(jobs: seq<Job>, now: int, n: nat): Option<nat>
    requires n <= |jobs|
    decreases |jobs| - n
  {
    if n == |jobs| then None else if Claimable(jobs[n], now) then Some(n) else OldestFrom(jobs, now, n + 1)
  }

  /** A lease of zero seconds counts as no lease. */
  function LeaseEnd(now: int, leaseSeconds: Option<int>): Option<int> {
    if leaseSeconds.Some? && leaseSeconds.value != 0 then Some(now + leaseSeconds.value) else None
  }

  function ClaimedJob(j: Job, now: int, worker: Option<string>, leaseSeconds: Option<int>): Job {
    j.(status := Running, worker := worker, lease := LeaseEnd(now, leaseSeconds), attempts := j.attempts + 1)
  }

  function Claimed(db: Db, now: int, worker: Option<string>, leaseSeconds: Option<int>): (Db, Option<Claim>) {
    match OldestFrom(db.jobs, now, 0)
    case None => (db, None)
    case Some(i) =>
      if i < |db.jobs| then
        (db.(jobs := db.jobs[i := ClaimedJob(db.jobs[i], now, worker, leaseSeconds)]),
         Some(Claim(i, worker, db.jobs[i].attempts + 1)))
      else (db, None)
  }

  /** _still_owns: status, worker and attempt all unchanged since the claim. */
  predicate StillOwns(db: Db, c: Claim) {
    && c.id < |db.jobs|
    && db.jobs[c.id].status == Running
    && db.jobs[c.id].worker == c.worker
    && db.jobs[c.id].attempts == c.attempt
  }

  function Finished(db: Db, c: Claim, status: Status): Db {
    if StillOwns(db, c) then db.(jobs := db.jobs[c.id := db.jobs[c.id].(status := status, lease := None)]) else db
  }

  function Recorded(db: Db, c: Claim, e: Evaluation): Db {
    if StillOwns(db, c) then
      Db(db.jobs[c.id := db.jobs[c.id].(status := Done, lease := None)],
         db.results + [Row(db.jobs[c.id].run, c.id, e)])
    else db
  }

  /** The job waits for a worker: it is queued, or running under a lease that ended before now. */
  predicate Waiting(j: Job, now: int) {
    match j.status
    case Queued => true
    case Running => j.lease.Some? && j.lease.value < now
    case Done => false
    case Failed => false
  }

  // ----- the transactions as methods ---------------------------------------

  class JobStore {
    var jobs: seq<Job>
    var results: seq<Row>

    function Value(): Db
      reads this
    {
      Db(jobs, results)
    }

    constructor ()
      ensures Value() == Db([], [])
    {
      jobs, results := [], [];
    }

    method EnqueueJob(run: string, kind: string) returns (id: nat)
      modifies this
      ensures Value() == Enqueued(old(Value()), run, kind) && id == |old(jobs)|
      ensures jobs == old(jobs) + [Job(run, kind, Queued, None, None, 0)] && results == old(results)
    {
      id := |jobs|;
      jobs := jobs + [Job(run, kind, Queued, None, None, 0)];
    }

    /** claim_next_job */
    method ClaimNextJob(now: int, worker: Option<string>, leaseSeconds: Option<int>) returns (c: Option<Claim>)
      modifies this
      ensures (Value(), c) == Claimed(old(Value()), now, worker, leaseSeconds)
      ensures c.None? <==> forall i :: 0 <= i < |old(jobs)| ==> !Waiting(old(jobs)[i], now)
      ensures c.None? ==> jobs == old(jobs)
      ensures c.Some? ==> c.value.id < |old(jobs)|
      ensures c.Some? ==>
                var id, j := c.value.id, old(jobs)[c.value.id];
                && Waiting(j, now) && (forall i :: 0 <= i < id ==> !Waiting(old(jobs)[i], now))
                && c.value == Claim(id, worker, j.attempts + 1)
                && jobs == old(jobs)[id := Job(j.run, j.kind, Running, worker,
                                               if leaseSeconds.None? || leaseSeconds.value == 0 then None
                                               else Some(now + leaseSeconds.value), j.attempts + 1)]
      ensures results == old(results)
    {
      OldestIsClaimable(jobs, now, 0);
      var i := 0;
      while i < |jobs|
        invariant i <= |jobs| && jobs == old(jobs) && results == old(results)
        invariant OldestFrom(jobs, now, 0) == OldestFrom(jobs, now, i)
      {
        if Claimable(jobs[i], now) {
          var attempt := jobs[i].attempts + 1;
          jobs := jobs[i := jobs[i].(status := Running, worker := worker,
                                     lease := LeaseEnd(now, leaseSeconds), attempts := attempt)];
          return Some(Claim(i, worker, attempt));
        }
        i := i + 1;
      }
      return None;
    }

    /** finish_job_if_owned; the worker passes "failed". */
    method FinishIfOwned(c: Claim, status: Status) returns (owned: bool)
      modifies this
      ensures owned == StillOwns(old(Value()), c)
      ensures Value() == Finished(old(Value()), c, status)
      ensures owned ==> c.id < |old(jobs)| && jobs == old(jobs)[c.id := old(jobs)[c.id].(status := status, lease := None)]
      ensures !owned ==> jobs == old(jobs)
      ensures results == old(results)
    {
      if !StillOwns(Value(), c) {
        return false;
      }
      jobs := jobs[c.id := jobs[c.id].(status := status, lease := None)];
      return true;
    }

    /** record_result_if_owned: insert the result and mark the job done, or do nothing. */
    method RecordIfOwned(c: Claim, e: Evaluation) returns (id: Option<nat>)
      modifies this
      ensures id == if StillOwns(old(Value()), c) then Some(|old(results)|) else None
      ensures Value() == Recorded(old(Value()), c, e)
      ensures id.Some? ==> c.id < |old(jobs)| && results == old(results) + [Row(old(jobs)[c.id].run, c.id, e)]
                           && jobs == old(jobs)[c.id := old(jobs)[c.id].(status := Done, lease := None)]
      ensures id.None? ==> jobs == old(jobs) && results == old(results)
    {
      if !StillOwns(Value(), c) {
        return None;
      }
      results := results + [Row(jobs[c.id].run, c.id, e)];
      jobs := jobs[c.id := jobs[c.id].(status := Done, lease := None)];
      return Some(|results| - 1);
    }
  }

  // ----- every interleaving ------------------------------------------------

  /** The database together with every claim ever handed out and the claim behind each result. */
  datatype World = World(db: Db, claims: seq<Claim>, authors: seq<Claim>)

  /** One transaction of some client. Clock readings, workers and evaluations are arbitrary; a claim can be
      finished or recorded at any later time, any number of times, by whoever was handed it. */
  datatype Event =
    | Enqueue(run: string, kind: string)
    | ClaimNext(now: int, worker: Option<string>, leaseSeconds: Option<int>)
    | Fail(claim: Claim)
    | Record(claim: Claim, eval: Evaluation)

  function Apply(w: World, e: Event): World {
    match e
    case Enqueue(run, kind) => w.(db := Enqueued(w.db, run, kind))
    case ClaimNext(now, worker, leaseSeconds) =>
      (match Claimed(w.db, now, worker, leaseSeconds).1
       case None => w
       case Some(c) => World(Claimed(w.db, now, worker, leaseSeconds).0, w.claims + [c], w.authors))
    case Fail(c) => if c in w.claims then w.(db := Finished(w.db, c, Failed)) else w
    case Record(c, eval) =>
      if c in w.claims && StillOwns(w.db, c) then World(Recorded(w.db, c, eval), w.claims, w.authors + [c]) else w
  }

  /** The world after a run of events from empty tables. */
  function After(events: seq<Event>): World {
    if events == [] then World(Db([], []), [], [])
    else Apply(After(events[..|events| - 1]), events[|events| - 1])
  }

  lemma AfterStep(events: seq<Event>, e: Event)
    ensures After(events + [e]) == Apply(After(events), e)
  {
    assert (events + [e])[..|events|] == events;
  }

  /** How many of the claims are for job id. */
  function ClaimCount(claims: seq<Claim>, id: nat): nat {
    if claims == [] then 0
    else ClaimCount(claims[..|claims| - 1], id) + if claims[|claims| - 1].id == id then 1 else 0
  }

  ghost predicate ClaimsNumbered(w: World) {
    && (forall id :: 0 <= id < |w.db.jobs| ==> w.db.jobs[id].attempts == ClaimCount(w.claims, id))
    && (forall i :: 0 <= i < |w.claims| ==>
          w.claims[i].id < |w.db.jobs| && w.claims[i].attempt == ClaimCount(w.claims[..i + 1], w.claims[i].id))
  }

  ghost predicate ResultsFenced(w: World) {
    && |w.authors| == |w.db.results|
    && (forall i :: 0 <= i < |w.authors| ==>
          && w.authors[i] in w.claims
          && w.db.results[i].job == w.authors[i].id < |w.db.jobs|
          && w.db.jobs[w.authors[i].id].status == Done
          && w.db.jobs[w.authors[i].id].attempts == w.authors[i].attempt
          && w.db.results[i].run == w.db.jobs[w.authors[i].id].run)
    && (forall i, k :: 0 <= i < k < |w.db.results| ==> w.db.results[i].job != w.db.results[k].job)
    && (forall id :: 0 <= id < |w.db.jobs| && w.db.jobs[id].status == Done ==>
          exists i :: 0 <= i < |w.db.results| && w.db.results[i].job == id)
  }

  ghost predicate Inv(w: World) {
    ClaimsNumbered(w) && ResultsFenced(w)
  }

  lemma {:induction false} OldestIsClaimable(jobs: seq<Job>, now: int, n: nat)
    requires n <= |jobs|
    ensures match OldestFrom(jobs, now, n)
            case None => forall i :: n <= i < |jobs| ==> !Claimable(jobs[i], now)
            case Some(i) => n <= i < |jobs| && Claimable(jobs[i], now) && forall k :: n <= k < i ==> !Claimable(jobs[k], now)
    decreases |jobs| - n
  {
    if n < |jobs| && !Claimable(jobs[n], now) {
      OldestIsClaimable(jobs, now, n + 1);
    }
  }

  lemma {:induction false} NoClaimsYet(claims: seq<Claim>, id: nat)
    requires forall i :: 0 <= i < |claims| ==> claims[i].id < id
    ensures ClaimCount(claims, id) == 0
  {
    if claims != [] {
      NoClaimsYet(claims[..|claims| - 1], id);
    }
  }

  lemma CountAppend(claims: seq<Claim>, c: Claim, id: nat)
    ensures ClaimCount(claims + [c], id) == ClaimCount(claims, id) + if c.id == id then 1 else 0
  {
    assert (claims + [c])[..|claims|] == claims;
  }

  lemma EnqueueKeepsInv(w: World, run: string, kind: string)
    requires Inv(w)
    ensures Inv(Apply(w, Enqueue(run, kind)))
  {
    NoClaimsYet(w.claims, |w.db.jobs|);
  }

  /** Handing out a claim keeps the numbering. */
  lemma NumbersAppend(w: World, c: Claim, j: Job)
    requires ClaimsNumbered(w) && c.id < |w.db.jobs| && c.attempt == j.attempts == w.db.jobs[c.id].attempts + 1
    ensures ClaimsNumbered(World(w.db.(jobs := w.db.jobs[c.id := j]), w.claims + [c], w.authors))
  {
    hide ClaimCount;
    var claims := w.claims + [c];
    forall id ensures ClaimCount(claims, id) == ClaimCount(w.claims, id) + if c.id == id then 1 else 0 {
      CountAppend(w.claims, c, id);
    }
    forall i | 0 <= i < |claims|
      ensures claims[i].id < |w.db.jobs| && claims[i].attempt == ClaimCount(claims[..i + 1], claims[i].id)
    {
      assert claims[..i + 1] == if i < |w.claims| then w.claims[..i + 1] else claims;
    }
  }

  lemma ClaimKeepsInv(w: World, now: int, worker: Option<string>, leaseSeconds: Option<int>)
    requires Inv(w)
    ensures Inv(Apply(w, ClaimNext(now, worker, leaseSeconds)))
  {
    hide ResultsFenced, ClaimsNumbered, LeaseEnd;
    ClaimKeepsResults(w, now, worker, leaseSeconds);
    OldestIsClaimable(w.db.jobs, now, 0);
    match Claimed(w.db, now, worker, leaseSeconds).1
    case None =>
    case Some(c) => NumbersAppend(w, c, ClaimedJob(w.db.jobs[c.id], now, worker, leaseSeconds));
  }

  lemma ClaimKeepsResults(w: World, now: int, worker: Option<string>, leaseSeconds: Option<int>)
    requires Inv(w)
    ensures ResultsFenced(Apply(w, ClaimNext(now, worker, leaseSeconds)))
  {
    hide ClaimsNumbered, LeaseEnd;
    OldestIsClaimable(w.db.jobs, now, 0);
  }

  lemma FailKeepsInv(w: World, c: Claim)
    requires Inv(w)
    ensures Inv(Apply(w, Fail(c)))
  {
  }

  lemma RecordKeepsInv(w: World, c: Claim, eval: Evaluation)
    requires Inv(w)
    ensures Inv(Apply(w, Record(c, eval)))
  {
    hide ClaimCount, OldestFrom;
    if c in w.claims && StillOwns(w.db, c) {
      var w' := Apply(w, Record(c, eval));
      assert w'.db.results[|w.db.results|].job == c.id;
      forall id | 0 <= id < |w'.db.jobs| && w'.db.jobs[id].status == Done
        ensures exists i :: 0 <= i < |w'.db.results| && w'.db.results[i].job == id
      {
        if id != c.id {
          var i :| 0 <= i < |w.db.results| && w.db.results[i].job == id;
          assert w'.db.results[i].job == id;
        }
      }
    }
  }

  lemma {:induction false} InvAlways(events: seq<Event>)
    ensures Inv(After(events))
  {
    if events != [] {
      InvAlways(events[..|events| - 1]);
      var w := After(events[..|events| - 1]);
      match events[|events| - 1]
      case Enqueue(run, kind) => EnqueueKeepsInv(w, run, kind);
      case ClaimNext(now, worker, leaseSeconds) => ClaimKeepsInv(w, now, worker, leaseSeconds);
      case Fail(c) => FailKeepsInv(w, c);
      case Record(c, eval) => RecordKeepsInv(w, c, eval);
    }
  }

  // ----- what the protocol guarantees --------------------------------------

  /** Each job has at most one result row, and is done exactly when it has one. */
  lemma OneResultPerJob(events: seq<Event>, id: nat)
    requires id < |After(events).db.jobs|
    ensures var db := After(events).db;
            && (forall i, k :: 0 <= i < |db.results| && 0 <= k < |db.results| && db.results[i].job == db.results[k].job ==>
                  i == k)
            && (db.jobs[id].status == Done <==> exists i :: 0 <= i < |db.results| && db.results[i].job == id)
  {
    InvAlways(events);
    hide After, ClaimsNumbered;
  }

  lemma {:induction false} CountMonotone(claims: seq<Claim>, n: nat, id: nat)
    requires n <= |claims|
    ensures ClaimCount(claims[..n], id) <= ClaimCount(claims, id)
  {
    if n == |claims| {
      assert claims[..n] == claims;
    } else {
      CountMonotone(claims[..|claims| - 1], n, id);
      assert claims[..|claims| - 1][..n] == claims[..n];
    }
  }

  /** No two claims are alike: the attempt number tells claims of one job apart. */
  lemma ClaimsDiffer(events: seq<Event>, i: nat, k: nat)
    requires i < k < |After(events).claims|
    ensures var claims := After(events).claims;
            claims[i].id == claims[k].id ==> claims[i].attempt < claims[k].attempt
  {
    InvAlways(events);
    hide After, ResultsFenced;
    var claims := After(events).claims;
    if claims[i].id == claims[k].id {
      CountMonotone(claims[..k], i + 1, claims[k].id);
      assert claims[..k][..i + 1] == claims[..i + 1];
      assert claims[..k + 1] == claims[..k] + [claims[k]];
      CountAppend(claims[..k], claims[k], claims[k].id);
    }
  }

  /** At any moment at most one outstanding claim of a job passes the fence. */
  lemma OneOwner(events: seq<Event>, i: nat, k: nat)
    requires i < |After(events).claims| && k < |After(events).claims|
    requires var w := After(events);
             StillOwns(w.db, w.claims[i]) && StillOwns(w.db, w.claims[k]) && w.claims[i].id == w.claims[k].id
    ensures i == k
  {
    if i < k {
      ClaimsDiffer(events, i, k);
    } else if k < i {
      ClaimsDiffer(events, k, i);
    }
  }

  /** attempt_count is the number of claims handed out. */
  lemma AttemptsCountClaims(events: seq<Event>, id: nat)
    requires id < |After(events).db.jobs|
    ensures After(events).db.jobs[id].attempts == ClaimCount(After(events).claims, id)
  {
    InvAlways(events);
  }

  /** A recorded result comes from the last claim ever handed out for its job. */
  lemma ResultIsByLastClaim(events: seq<Event>, r: nat, i: nat)
    requires r < |After(events).db.results| && i < |After(events).claims|
    ensures var w := After(events);
            && r < |w.authors| && w.authors[r] in w.claims && w.authors[r].id == w.db.results[r].job
            && (w.claims[i].id == w.db.results[r].job ==> w.claims[i].attempt <= w.authors[r].attempt)
  {
    InvAlways(events);
    hide After;
    var w := After(events);
    CountMonotone(w.claims, i + 1, w.claims[i].id);
  }

  /** Done and failed jobs are final: no event changes them, so they are never claimed again. */
  lemma {:induction false} FinalForever(events: seq<Event>, more: seq<Event>, id: nat)
    requires id < |After(events).db.jobs| && After(events).db.jobs[id].status in {Done, Failed}
    ensures id < |After(events + more).db.jobs|
    ensures After(events + more).db.jobs[id] == After(events).db.jobs[id]
    ensures ClaimCount(After(events + more).claims, id) == ClaimCount(After(events).claims, id)
    decreases |more|
  {
    if more == [] {
      assert events + more == events;
    } else {
      var last := more[|more| - 1];
      var some := events + more[..|more| - 1];
      FinalForever(events, more[..|more| - 1], id);
      assert events + more == some + [last];
      assert (some + [last])[..|some|] == some;
      StepKeepsFinal(After(some), last, id);
      InvAlways(some);
      InvAlways(events + more);
    }
  }

  lemma StepKeepsFinal(w: World, e: Event, id: nat)
    requires id < |w.db.jobs| && w.db.jobs[id].status in {Done, Failed}
    ensures id < |Apply(w, e).db.jobs| && Apply(w, e).db.jobs[id] == w.db.jobs[id]
  {
    if e.ClaimNext? {
      OldestIsClaimable(w.db.jobs, e.now, 0);
    }
  }

  /** Without an expired lease a running job is not handed out again. */
  lemma LiveLeaseProtects(w: World, now: int, worker: Option<string>, leaseSeconds: Option<int>, id: nat)
    requires id < |w.db.jobs| && w.db.jobs[id].status == Running
    requires w.db.jobs[id].lease.Some? ==> now <= w.db.jobs[id].lease.value
    ensures Apply(w, ClaimNext(now, worker, leaseSeconds)).db.jobs[id] == w.db.jobs[id]
  {
    OldestIsClaimable(w.db.jobs, now, 0);
  }

  /** The event is the holder of c finishing or recording it. */
  predicate Settles(e: Event, c: Claim) {
    (e.Fail? && e.claim == c) || (e.Record? && e.claim == c)
  }

  /** Until its holder settles it, a claim is lost only by the job being claimed again. */
  lemma {:induction false} OwnsUntilReclaimed(events: seq<Event>, more: seq<Event>, c: Claim)
    requires c in After(events).claims && StillOwns(After(events).db, c)
    requires forall i :: 0 <= i < |more| ==> !Settles(more[i], c)
    ensures StillOwns(After(events + more).db, c) <==>
            ClaimCount(After(events + more).claims, c.id) == ClaimCount(After(events).claims, c.id)
    ensures c.id < |After(events + more).db.jobs|
    ensures ClaimCount(After(events + more).claims, c.id) >= ClaimCount(After(events).claims, c.id)
    decreases |more|
  {
    hide After, Apply, ClaimCount, ResultsFenced;
    if more == [] {
      assert events + more == events;
    } else {
      var last := more[|more| - 1];
      var some := events + more[..|more| - 1];
      OwnsUntilReclaimed(events, more[..|more| - 1], c);
      assert events + more == some + [last];
      AfterStep(some, last);
      InvAlways(events);
      InvAlways(some);
      StepKeepsOwner(After(some), last, c, ClaimCount(After(events).claims, c.id));
    }
  }

  lemma StepKeepsOwner(w: World, e: Event, c: Claim, count: nat)
    requires Inv(w) && !Settles(e, c) && c.id < |w.db.jobs| && count <= ClaimCount(w.claims, c.id)
    requires c.attempt == count && (StillOwns(w.db, c) <==> ClaimCount(w.claims, c.id) == count)
    ensures var w' := Apply(w, e);
            && c.id < |w'.db.jobs| && count <= ClaimCount(w'.claims, c.id)
            && (StillOwns(w'.db, c) <==> ClaimCount(w'.claims, c.id) == count)
  {
    hide ClaimCount, ResultsFenced, OldestFrom, LeaseEnd;
    match e
    case Enqueue(_, _) =>
    case ClaimNext(now, worker, leaseSeconds) =>
      OldestIsClaimable(w.db.jobs, now, 0);
      var got := Claimed(w.db, now, worker, leaseSeconds).1;
      if got.Some? {
        CountAppend(w.claims, got.value, c.id);
      }
    case Fail(c') => OnlyOwner(w, c', c);
    case Record(c', _) => OnlyOwner(w, c', c);
  }

  /** The event is no claim made after the job's lease ran out; a job without a lease never runs out. */
  predicate BeforeExpiry(e: Event, j: Job) {
    e.ClaimNext? && j.lease.Some? ==> e.now <= j.lease.value
  }

  /** Over any run in which nobody claims after its lease ran out, a claim stays with its holder until the
      holder settles it; without a lease that is for good. */
  lemma {:induction false} LeaseProtects(events: seq<Event>, more: seq<Event>, c: Claim)
    requires c in After(events).claims && StillOwns(After(events).db, c)
    requires forall i :: 0 <= i < |more| ==> !Settles(more[i], c) && BeforeExpiry(more[i], After(events).db.jobs[c.id])
    ensures StillOwns(After(events + more).db, c) && c.id < |After(events + more).db.jobs|
    ensures After(events + more).db.jobs[c.id] == After(events).db.jobs[c.id]
    decreases |more|
  {
    hide After, Apply;
    if more == [] {
      assert events + more == events;
    } else {
      var last := more[|more| - 1];
      var some := events + more[..|more| - 1];
      LeaseProtects(events, more[..|more| - 1], c);
      assert events + more == some + [last];
      AfterStep(some, last);
      StepKeepsLease(After(some), last, c);
    }
  }

  lemma StepKeepsLease(w: World, e: Event, c: Claim)
    requires StillOwns(w.db, c) && !Settles(e, c) && BeforeExpiry(e, w.db.jobs[c.id])
    ensures StillOwns(Apply(w, e).db, c) && Apply(w, e).db.jobs[c.id] == w.db.jobs[c.id]
  {
    match e
    case Enqueue(_, _) =>
    case ClaimNext(now, worker, leaseSeconds) => LiveLeaseProtects(w, now, worker, leaseSeconds, c.id);
    case Fail(c') => OnlyOwner(w, c', c);
    case Record(c', _) => OnlyOwner(w, c', c);
  }

  /** Two claims of one job that both pass the fence compare alike. */
  lemma OnlyOwner(w: World, a: Claim, b: Claim)
    ensures StillOwns(w.db, a) && StillOwns(w.db, b) && a.id == b.id ==> a == b
  {
  }

  // ----- output directories ------------------------------------------------

  /** job_<id>_attempt_<n>, where SQLite numbers its rows from 1. */
  function OutputDir(c: Claim): string {
    "job_" + (Decimal(c.id + 1) + "_" + ("attempt_" + Decimal(c.attempt)))
  }

  predicate AllDigits(s: string) {
    forall i :: 0 <= i < |s| ==> IsDigit(s[i])
  }

  lemma DigitsSplit(a: string, x: string, b: string, y: string)
    requires AllDigits(a) && AllDigits(b) && a + "_" + x == b + "_" + y
    ensures a == b && x == y
  {
    var s := a + "_" + x;
    var t := b + "_" + y;
    assert s[|a|] == '_' && t[|b|] == '_';
    assert forall i :: 0 <= i < |a| ==> s[i] == a[i];
    assert forall i :: 0 <= i < |b| ==> t[i] == b[i];
    assert |a| == |b|;
    assert a == s[..|a|] && b == t[..|a|];
    assert x == s[|a| + 1..] && y == t[|a| + 1..];
  }

  lemma DecimalInjective(m: nat, n: nat)
    requires Decimal(m) == Decimal(n)
    ensures m == n
  {
    DecimalValue(m);
    DecimalValue(n);
  }

  /** Two claims never write to the same output directory. */
  lemma OutputDirsDiffer(events: seq<Event>, i: nat, k: nat)
    requires i < k < |After(events).claims|
    ensures OutputDir(After(events).claims[i]) != OutputDir(After(events).claims[k])
  {
    hide After, Decimal;
    var c, d := After(events).claims[i], After(events).claims[k];
    ClaimsDiffer(events, i, k);
    if OutputDir(c) == OutputDir(d) {
      var x, y := "attempt_" + Decimal(c.attempt), "attempt_" + Decimal(d.attempt);
      assert OutputDir(c)[4..] == Decimal(c.id + 1) + "_" + x;
      assert OutputDir(d)[4..] == Decimal(d.id + 1) + "_" + y;
      DigitsSplit(Decimal(c.id + 1), x, Decimal(d.id + 1), y);
      DecimalInjective(c.id + 1, d.id + 1);
      assert x[8..] == Decimal(c.attempt) && y[8..] == Decimal(d.attempt);
      DecimalInjective(c.attempt, d.attempt);
    }
  }
}
