/**
 Which rows the workers will deliver. A worker run in which mail, stamps and scenario look-ups succeed
 always ends, and it leaves no unsent row exactly when each one had a job still on its way out.
 */
module CampaignDrain {
  import opened Wrappers
  import opened CampaignProtocol
  import opened CampaignInvariants

  // ---------- Successful worker steps ----------

  /** A worker step in which nothing fails and the scenario exists. */
  predicate OkStep(a: Action) {
    a.DoClaim? || a.DoRead? || (a.DoRender? && a.scenarioFound) || a.DoMail? || a.DoStamp? || a.DoReturn?
  }

  /** A run of successful worker steps, each of which does something. */
  ghost predicate OkRun(s: State, actions: seq<Action>)
    decreases |actions|
  {
    actions == [] || (OkStep(actions[0]) && Apply(s, actions[0]) != s && OkRun(Apply(s, actions[0]), actions[1..]))
  }

  /** No successful worker step can do anything any more. */
  ghost predicate Idle(s: State) {
    forall a :: OkStep(a) ==> Apply(s, a) == s
  }

  // ---------- Work left ----------

  /** How many steps the id's job can still take. */
  function Weight(s: State, id: SendId): nat {
    if id !in s.jobs then 0
    else if s.jobs[id].state == Waiting || s.jobs[id].state == Delayed then 6
    else if id !in s.workers then 0
    else match s.workers[id]
      case Claimed => 5
      case Checked => if id in s.sends then 4 else 9
      case Rendered => if id in s.sends then 3 else 8
      case Mailed => if id in s.sends then 2 else 7
      case Returning => 1
  }

  function Work(s: State, n: nat): nat {
    if n == 0 then 0 else Work(s, n - 1) + Weight(s, n - 1)
  }

  lemma {:induction false} WorkAt(s: State, s': State, id: SendId, n: nat)
    requires forall k: SendId :: k != id ==> Weight(s', k) == Weight(s, k)
    ensures Work(s', n) == Work(s, n) + if id < n then Weight(s', id) - Weight(s, id) else 0
  {
    if n > 0 {
      WorkAt(s, s', id, n - 1);
    }
  }

  lemma ClaimWeight(s: State, id: SendId)
    requires QueueInv(s) && Claim(s, id) != s
    ensures id in s.jobs && Weight(Claim(s, id), id) < Weight(s, id)
  {
  }

  lemma ReadWeight(s: State, id: SendId)
    requires QueueInv(s) && Read(s, id) != s
    ensures id in s.jobs && Weight(Read(s, id), id) < Weight(s, id)
  {
  }

  lemma RenderWeight(s: State, id: SendId)
    requires QueueInv(s) && Render(s, id, true) != s
    ensures id in s.jobs && Weight(Render(s, id, true), id) < Weight(s, id)
  {
  }

  lemma MailWeight(s: State, id: SendId)
    requires QueueInv(s) && SendMail(s, id) != s
    ensures id in s.jobs && Weight(SendMail(s, id), id) < Weight(s, id)
  {
  }

  lemma StampWeight(s: State, id: SendId)
    requires QueueInv(s) && Stamp(s, id) != s
    ensures id in s.jobs && Weight(Stamp(s, id), id) < Weight(s, id)
  {
  }

  lemma ReturnWeight(s: State, id: SendId)
    requires QueueInv(s) && Return(s, id) != s
    ensures id in s.jobs && Weight(Return(s, id), id) < Weight(s, id)
  {
  }

  lemma OwnWeightDrops(s: State, a: Action)
    requires IdsInv(s) && QueueInv(s) && OkStep(a) && Apply(s, a) != s
    ensures a.id < s.nextSend && Weight(Apply(s, a), a.id) < Weight(s, a.id)
  {
    match a
    case DoClaim(id) => ClaimWeight(s, id);
    case DoRead(id) => ReadWeight(s, id);
    case DoRender(id, _) => RenderWeight(s, id);
    case DoMail(id) => MailWeight(s, id);
    case DoStamp(id) => StampWeight(s, id);
    case DoReturn(id) => ReturnWeight(s, id);
  }

  lemma WorkDrops(s: State, a: Action)
    requires Inv(s) && OkStep(a) && Apply(s, a) != s
    ensures Inv(Apply(s, a)) && Apply(s, a).nextSend == s.nextSend
    ensures Work(Apply(s, a), s.nextSend) < Work(s, s.nextSend)
  {
    WorkerStepKeepsInv(s, a);
    OwnWeightDrops(s, a);
    WeightElsewhere(s, Apply(s, a), a.id);
    WorkAt(s, Apply(s, a), a.id, s.nextSend);
  }

  lemma WeightElsewhere(s: State, s': State, id: SendId)
    requires OnlyAt(s, s', id)
    ensures s'.nextSend == s.nextSend && forall k: SendId :: k != id ==> Weight(s', k) == Weight(s, k)
  {
  }

  // ---------- Rows that are on their way out, and rows that are stuck ----------

  /** The row's job waits for a worker, or its worker has not given up on it. */
  predicate Going(s: State, id: SendId) {
    && id in s.jobs
    && Live(s.jobs[id])
    && !InPhase(s, id, Returning)
  }

  ghost predicate AllGoing(s: State, c: CampaignId) {
    forall id :: id in Unsent(s, c) ==> Going(s, id)
  }

  /** An unsent row keeps going or gets stamped, and a stuck one stays stuck. */
  predicate GoingKept(s: State, s': State, c: CampaignId, id: SendId) {
    && (Going(s, id) && id in Unsent(s', c) ==> Going(s', id))
    && (!Going(s, id) ==> id in Unsent(s', c) && !Going(s', id))
  }

  lemma GoingClaim(s: State, c: CampaignId, id: SendId)
    requires QueueInv(s) && id in Unsent(s, c)
    ensures GoingKept(s, Claim(s, id), c, id)
  {
  }

  lemma GoingRead(s: State, c: CampaignId, id: SendId)
    requires QueueInv(s) && id in Unsent(s, c) && HasStatus(s, c, Active)
    ensures GoingKept(s, Read(s, id), c, id)
  {
  }

  lemma GoingRender(s: State, c: CampaignId, id: SendId)
    requires QueueInv(s) && id in Unsent(s, c)
    ensures GoingKept(s, Render(s, id, true), c, id)
    ensures GoingKept(s, SendMail(s, id), c, id)
  {
  }

  lemma GoingStamp(s: State, c: CampaignId, id: SendId)
    requires QueueInv(s) && id in Unsent(s, c)
    ensures GoingKept(s, Stamp(s, id), c, id)
    ensures GoingKept(s, Return(s, id), c, id)
  {
  }

  /** A successful step of an active campaign's worker keeps its row so. */
  lemma GoingOwn(s: State, a: Action, c: CampaignId)
    requires QueueInv(s) && HasStatus(s, c, Active) && OkStep(a) && a.id in Unsent(s, c)
    ensures GoingKept(s, Apply(s, a), c, a.id)
  {
    match a
    case DoClaim(id) => GoingClaim(s, c, id);
    case DoRead(id) => GoingRead(s, c, id);
    case DoRender(id, _) => GoingRender(s, c, id);
    case DoMail(id) => GoingRender(s, c, id);
    case DoStamp(id) => GoingStamp(s, c, id);
    case DoReturn(id) => GoingStamp(s, c, id);
  }

  /** Over a successful step, the unsent rows still going stay going or get stamped, and the stuck ones stay stuck. */
  ghost predicate Steady(s: State, s': State, c: CampaignId, id: SendId) {
    && (id in Unsent(s', c) ==> id in Unsent(s, c))
    && (Going(s, id) && id in Unsent(s', c) ==> Going(s', id))
    && (id in Unsent(s, c) && !Going(s, id) ==> id in Unsent(s', c) && !Going(s', id))
  }

  lemma GoingOther(s: State, s': State, k: SendId, c: CampaignId, id: SendId)
    requires OnlyAt(s, s', k) && id != k
    ensures Steady(s, s', c, id)
  {
  }

  lemma GoingStep(s: State, a: Action, c: CampaignId, id: SendId)
    requires Inv(s) && HasStatus(s, c, Active) && OkStep(a)
    ensures Steady(s, Apply(s, a), c, id)
  {
    if id != a.id {
      WorkerStepKeepsInv(s, a);
      GoingOther(s, Apply(s, a), a.id, c, id);
    } else {
      UnsentOwn(s, a, c);
      if id in Unsent(s, c) {
        GoingOwn(s, a, c);
      }
    }
  }

  lemma UnsentOwn(s: State, a: Action, c: CampaignId)
    requires OkStep(a)
    ensures Apply(s, a).campaigns == s.campaigns
    ensures a.id in Unsent(Apply(s, a), c) ==> a.id in Unsent(s, c)
  {
  }

  lemma NextStep(s: State, id: SendId)
    requires Inv(s) && id in s.sends && Going(s, id)
    ensures exists a :: OkStep(a) && Apply(s, a) != s
  {
    if s.jobs[id].state != Running {
      assert Claim(s, id).jobs[id].state == Running;
      assert OkStep(DoClaim(id)) && Apply(s, DoClaim(id)) != s;
    } else {
      RunningStep(s, id);
    }
  }

  lemma RunningStep(s: State, id: SendId)
    requires id in s.workers && id in s.sends && id in s.jobs && s.workers[id] != Returning
    ensures exists a :: OkStep(a) && Apply(s, a) != s
  {
    match s.workers[id]
    case Claimed =>
      assert !InPhase(Read(s, id), id, Claimed);
      assert OkStep(DoRead(id)) && Apply(s, DoRead(id)) != s;
    case Checked =>
      assert InPhase(Render(s, id, true), id, Rendered);
      assert OkStep(DoRender(id, true)) && Apply(s, DoRender(id, true)) != s;
    case Rendered =>
      assert InPhase(SendMail(s, id), id, Mailed);
      assert OkStep(DoMail(id)) && Apply(s, DoMail(id)) != s;
    case Mailed =>
      assert InPhase(Stamp(s, id), id, Returning);
      assert OkStep(DoStamp(id)) && Apply(s, DoStamp(id)) != s;
  }

  /** An idle state has no unsent row still going. */
  lemma IdleHasNoGoing(s: State, c: CampaignId, id: SendId)
    requires Inv(s) && Idle(s) && id in Unsent(s, c)
    ensures !Going(s, id)
  {
    if Going(s, id) {
      NextStep(s, id);
      assert false;
    }
  }

  lemma {:induction false} OkRunKeeps(s: State, actions: seq<Action>, c: CampaignId, id: SendId)
    requires Inv(s) && HasStatus(s, c, Active) && OkRun(s, actions)
    ensures Inv(Run(s, actions)) && HasStatus(Run(s, actions), c, Active)
    ensures id in Unsent(Run(s, actions), c) ==> id in Unsent(s, c)
    ensures Going(s, id) && id in Unsent(Run(s, actions), c) ==> Going(Run(s, actions), id)
    ensures id in Unsent(s, c) && !Going(s, id) ==> id in Unsent(Run(s, actions), c)
    decreases |actions|
  {
    if actions != [] {
      var s1 := Apply(s, actions[0]);
      GoingStep(s, actions[0], c, id);
      WorkerStepKeepsInv(s, actions[0]);
      OkRunKeeps(s1, actions[1..], c, id);
    }
  }

  // ---------- Termination ----------

  /** No run of successful worker steps is longer than the work left. */
  lemma {:induction false} OkRunIsBounded(s: State, actions: seq<Action>)
    requires Inv(s) && OkRun(s, actions)
    ensures |actions| <= Work(s, s.nextSend)
    decreases |actions|
  {
    if actions != [] {
      WorkDrops(s, actions[0]);
      OkRunIsBounded(Apply(s, actions[0]), actions[1..]);
    }
  }

  /** So from every state the workers can run until they are idle. */
  lemma {:induction false} OkRunToIdle(s: State) returns (actions: seq<Action>)
    requires Inv(s)
    ensures OkRun(s, actions) && Idle(Run(s, actions))
    decreases Work(s, s.nextSend)
  {
    if Idle(s) {
      actions := [];
    } else {
      var a :| OkStep(a) && Apply(s, a) != s;
      WorkDrops(s, a);
      var rest := OkRunToIdle(Apply(s, a));
      actions := [a] + rest;
      assert actions[1..] == rest;
    }
  }

  /**
   Delivery: when the workers of an active campaign have run until they are idle, no row of it is unsent
   if and only if, before they ran, every unsent row was still going.
   */
  lemma DeliveredIffGoing(s: State, actions: seq<Action>, c: CampaignId)
    requires Inv(s) && HasStatus(s, c, Active) && OkRun(s, actions) && Idle(Run(s, actions))
    ensures Unsent(Run(s, actions), c) == {} <==> AllGoing(s, c)
  {
    var s' := Run(s, actions);
    if AllGoing(s, c) {
      forall id | id in Unsent(s', c) ensures false {
        OkRunKeeps(s, actions, c, id);
        IdleHasNoGoing(s', c, id);
      }
      assert Unsent(s', c) == {};
    } else {
      var id :| id in Unsent(s, c) && !Going(s, id);
      OkRunKeeps(s, actions, c, id);
      assert id in Unsent(s', c);
    }
  }

  // ---------- Retry and resume ----------

  /** The worker of some unsent row has already decided not to send it. */
  ghost predicate GivenUp(s: State, c: CampaignId) {
    exists id :: id in Unsent(s, c) && InPhase(s, id, Returning)
  }

  /** Some unsent row still has a job that failed or finished. */
  ghost predicate Leftover(s: State, c: CampaignId) {
    exists id :: id in Unsent(s, c) && id in s.jobs && !Live(s.jobs[id])
  }

  /** After retryUnsent every unsent row has a live job of the campaign under its id. */
  lemma RetryQueuesAll(s: State, c: CampaignId)
    requires Inv(s) && HasStatus(s, c, Active)
    ensures
      var s' := RetryUnsent(s, c).0;
      Unsent(s', c) == Unsent(s, c) && forall id :: id in Unsent(s, c) ==>
          id in s'.jobs && Live(s'.jobs[id]) && s'.jobs[id].campaign == c
  {
    var s' := RetryUnsent(s, c).0;
    assert Unsent(s', c) == Unsent(s, c);
  }

  /** Besides that it changes nothing: running jobs and other campaigns' jobs are as they were, no job
      disappears, and only unsent rows gain one. */
  lemma RetryFrame(s: State, c: CampaignId)
    requires Inv(s) && HasStatus(s, c, Active)
    ensures
      var s' := RetryUnsent(s, c).0;
      && s' == s.(jobs := s'.jobs)
      && s'.jobs.Keys == s.jobs.Keys + Unsent(s, c)
      && (forall id :: id in s.jobs && (id !in Unsent(s, c) || s.jobs[id].state == Running) ==>
          s'.jobs[id] == s.jobs[id])
  {
    RequeueFrame(s.jobs, Unsent(s, c), c);
  }

  lemma RequeueFrame(jobs: map<SendId, Job>, pending: set<SendId>, c: CampaignId)
    ensures
      var jobs' := AddJobs(jobs - Removable(jobs, pending), pending, c);
      && jobs'.Keys == jobs.Keys + pending
      && (forall id :: id in jobs && (id !in pending || jobs[id].state == Running) ==> jobs'[id] == jobs[id])
  {
  }

  lemma RetryGoing(s: State, c: CampaignId)
    requires Inv(s) && HasStatus(s, c, Active)
    ensures AllGoing(RetryUnsent(s, c).0, c) <==> !GivenUp(s, c)
  {
    var s' := RetryUnsent(s, c).0;
    assert Unsent(s', c) == Unsent(s, c);
    RetryQueuesAll(s, c);
    if GivenUp(s, c) {
      var id :| id in Unsent(s, c) && InPhase(s, id, Returning);
      assert !Going(s', id);
    }
  }

  /**
   After retryUnsent on an active campaign, the workers deliver every unsent row
   unless a worker had already given one up (its job was running, so it could not be replaced).
   */
  lemma RetryDelivers(before: seq<Action>, c: CampaignId, after: seq<Action>)
    requires HasStatus(Run(EMPTY, before), c, Active)
    requires var s := RetryUnsent(Run(EMPTY, before), c).0; OkRun(s, after) && Idle(Run(s, after))
    ensures
      var s := Run(EMPTY, before);
      Unsent(Run(RetryUnsent(s, c).0, after), c) == {} <==> !GivenUp(s, c)
  {
    RunKeepsInv(EMPTY, before);
    var s := Run(EMPTY, before);
    RetryKeepsInv(s, c);
    RetryGoing(s, c);
    DeliveredIffGoing(RetryUnsent(s, c).0, after, c);
  }

  lemma ResumeGoing(s: State, c: CampaignId)
    requires Inv(s) && HasStatus(s, c, Paused)
    ensures AllGoing(Resume(s, c).0, c) <==> !Leftover(s, c) && !GivenUp(s, c)
  {
    var s' := Resume(s, c).0;
    assert Unsent(s', c) == Unsent(s, c);
    if Leftover(s, c) {
      var id :| id in Unsent(s, c) && id in s.jobs && !Live(s.jobs[id]);
      assert !Going(s', id);
    }
    if GivenUp(s, c) {
      var id :| id in Unsent(s, c) && InPhase(s, id, Returning);
      assert !Going(s', id);
    }
  }

  /**
   resume adds jobs only under ids that have none. So after it the workers deliver every unsent row
   if and only if no unsent row had a failed or finished job left over, nor a worker that had given it up.
   */
  lemma ResumeDelivers(before: seq<Action>, c: CampaignId, after: seq<Action>)
    requires HasStatus(Run(EMPTY, before), c, Paused)
    requires var s := Resume(Run(EMPTY, before), c).0; OkRun(s, after) && Idle(Run(s, after))
    ensures
      var s := Run(EMPTY, before);
      Unsent(Run(Resume(s, c).0, after), c) == {} <==> !Leftover(s, c) && !GivenUp(s, c)
  {
    RunKeepsInv(EMPTY, before);
    var s := Run(EMPTY, before);
    ResumeKeepsInv(s, c);
    ResumeGoing(s, c);
    DeliveredIffGoing(Resume(s, c).0, after, c);
  }
}
