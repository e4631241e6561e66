/** From launch to stamp: who has been mailed when the workers of a launched campaign have gone idle. */
module CampaignDelivery {
  import opened Wrappers
  import opened CampaignProtocol
  import opened CampaignInvariants
  import opened CampaignDrain
  import opened CampaignLaunch

  // ---------- A draft has no rows ----------

  ghost predicate DraftInv(s: State) {
    forall id :: id in s.sends ==> NotDraft(s, s.sends[id].campaign)
  }

  predicate NotDraft(s: State, c: CampaignId) {
    c in s.campaigns && s.campaigns[c].status != Draft
  }

  /** No campaign goes back to draft, and the rows there are belong to campaigns that already had some, or were
      launched. */
  lemma DraftFrame(s: State, s': State, launched: set<CampaignId>)
    requires DraftInv(s)
    requires forall c :: NotDraft(s, c) || c in launched ==> NotDraft(s', c)
    requires forall id :: id in s'.sends ==>
               s'.sends[id].campaign in launched || (id in s.sends && s'.sends[id].campaign == s.sends[id].campaign)
    ensures DraftInv(s')
  {
  }

  lemma LaunchKeepsDraft(s: State, c: CampaignId, env: Env)
    requires Inv(s) && DraftInv(s)
    ensures DraftInv(Launch(s, c, env).0)
  {
    if Launch(s, c, env).1.Ok? {
      ActivateRows(s, c, env);
      assert c < s.nextCampaign;
      DraftFrame(s, Launch(s, c, env).0, {c});
    }
  }

  lemma WorkerKeepsDraft(s: State, a: Action)
    requires Inv(s) && DraftInv(s) && WorkerStep(a)
    ensures DraftInv(Apply(s, a))
  {
    WorkerStepKeepsInv(s, a);
    SameRows(s, Apply(s, a), a.id);
    DraftFrame(s, Apply(s, a), {});
  }

  lemma SameRows(s: State, s': State, id: SendId)
    requires OnlyAt(s, s', id)
    ensures s'.campaigns == s.campaigns
    ensures forall k :: k in s'.sends ==> k in s.sends && s'.sends[k].campaign == s.sends[k].campaign
  {
  }

  /** No campaign that has left draft goes back to it, and no row changes. */
  ghost predicate StatusForward(s: State, s': State) {
    s'.sends == s.sends && forall c :: NotDraft(s, c) ==> NotDraft(s', c)
  }

  lemma EditForward(s: State, s': State, c: CampaignId)
    requires s'.sends == s.sends
    requires forall d :: d in s.campaigns && d != c ==> d in s'.campaigns && s'.campaigns[d] == s.campaigns[d]
    requires NotDraft(s, c) ==> NotDraft(s', c)
    ensures StatusForward(s, s')
  {
  }

  lemma RecordForward(s: State, a: Action)
    requires IdsInv(s) && (a.DoCreate? || a.DoSchedule? || a.DoPause? || a.SetDomain?)
    ensures StatusForward(s, Apply(s, a))
  {
    EditForward(s, Apply(s, a), if a.DoCreate? then s.nextCampaign else a.c);
  }

  lemma QueueForward(s: State, a: Action)
    requires a.DoResume? || a.DoKill? || a.DoRetry?
    ensures StatusForward(s, Apply(s, a))
  {
    EditForward(s, Apply(s, a), a.c);
  }

  lemma OtherForward(s: State, a: Action)
    requires IdsInv(s) && !WorkerStep(a) && !a.DoLaunch? && !a.RemoveEmployee?
    ensures StatusForward(s, Apply(s, a))
  {
    if a.DoResume? || a.DoKill? || a.DoRetry? {
      QueueForward(s, a);
    } else if a.Evict? {
      assert Apply(s, a).campaigns == s.campaigns && Apply(s, a).sends == s.sends;
    } else {
      RecordForward(s, a);
    }
  }

  lemma OtherKeepsDraft(s: State, a: Action)
    requires IdsInv(s) && DraftInv(s) && !WorkerStep(a) && !a.DoLaunch? && !a.RemoveEmployee?
    ensures DraftInv(Apply(s, a))
  {
    OtherForward(s, a);
    DraftFrame(s, Apply(s, a), {});
  }

  lemma {:induction false} RunKeepsDraft(s: State, actions: seq<Action>)
    requires Inv(s) && DraftInv(s)
    ensures DraftInv(Run(s, actions))
    decreases |actions|
  {
    if actions != [] {
      var a := actions[0];
      if WorkerStep(a) {
        WorkerKeepsDraft(s, a);
      } else if a.DoLaunch? {
        LaunchKeepsDraft(s, a.c, a.env);
      } else if a.RemoveEmployee? {
        DraftFrame(s, Apply(s, a), {});
      } else {
        OtherKeepsDraft(s, a);
      }
      StepKeepsInv(s, a);
      RunKeepsDraft(Apply(s, a), actions[1..]);
    }
  }

  // ---------- After a launch ----------

  /** The rows a launch finds unsent, or makes, are all on their way out unless one was stuck before. */
  lemma LaunchGoing(s: State, c: CampaignId, env: Env)
    requires Inv(s) && Launch(s, c, env).1.Ok?
    ensures AllGoing(Launch(s, c, env).0, c) <==> !Leftover(s, c) && !GivenUp(s, c)
  {
    var s' := Launch(s, c, env).0;
    LaunchFrame(s, c, env);
    if Leftover(s, c) {
      var id :| id in Unsent(s, c) && id in s.jobs && !Live(s.jobs[id]);
      assert id in Unsent(s', c) && !Going(s', id);
    }
    if GivenUp(s, c) {
      var id :| id in Unsent(s, c) && InPhase(s, id, Returning);
      assert id in Unsent(s', c) && !Going(s', id);
    }
    if !Leftover(s, c) && !GivenUp(s, c) {
      forall id | id in Unsent(s', c) ensures Going(s', id) {
        if id in s.sends { assert id in Unsent(s, c); }
      }
    }
  }

  /** What a launch leaves to the workers: the unsent rows it found and new ones under new ids, each with a job;
      jobs and workers there were are as they were. */
  ghost predicate Queued(s: State, s': State, c: CampaignId) {
    && s'.workers == s.workers && s'.log == s.log && s'.lost == s.lost
    && (forall id :: id in Unsent(s, c) ==> id in Unsent(s', c))
    && (forall id :: id in Unsent(s', c) ==> id in Unsent(s, c) || (id !in s.sends && s.nextSend <= id))
    && (forall id :: id in Unsent(s', c) ==> id in s'.jobs && s'.jobs[id] == JobAfter(s.jobs, id, c))
  }

  function JobAfter(jobs: map<SendId, Job>, id: SendId, c: CampaignId): Job {
    if id in jobs then jobs[id] else Job(Waiting, 0, c)
  }

  lemma LaunchFrame(s: State, c: CampaignId, env: Env)
    requires Inv(s) && Launch(s, c, env).1.Ok?
    ensures Queued(s, Launch(s, c, env).0, c)
    ensures forall id :: id in s.workers ==> id in s.jobs && id < s.nextSend
  {
    LaunchActivates(s, c, env);
    ActivateRows(s, c, env);
    UnsentAdded(s, Activate(s, c, env), c);
  }

  lemma UnsentAdded(s: State, s': State, c: CampaignId)
    requires OnlyNewRows(s, s', c)
    ensures forall id :: id in Unsent(s, c) ==> id in Unsent(s', c)
    ensures forall id :: id in Unsent(s', c) ==> id in Unsent(s, c) || (id !in s.sends && s.nextSend <= id)
  {
  }

  // ---------- Successful runs ----------

  /** A successful run neither adds nor removes rows, nor loses the stamp of any. */
  ghost predicate RowsStay(s: State, s': State) {
    && s'.sends.Keys == s.sends.Keys
    && (forall id :: id in s.sends ==> SamePair(s.sends[id], s'.sends[id]) && s'.lost[id] == s.lost[id])
  }

  lemma OkStepKeepsRows(s: State, a: Action)
    requires Inv(s) && OkStep(a)
    ensures RowsStay(s, Apply(s, a))
  {
    WorkerStepKeepsInv(s, a);
    OwnLost(s, a);
    RowsAt(s, Apply(s, a), a.id);
  }

  lemma OwnLost(s: State, a: Action)
    requires OkStep(a)
    ensures a.id in s.sends ==> Apply(s, a).lost[a.id] == s.lost[a.id]
  {
  }

  lemma RowsAt(s: State, s': State, id: SendId)
    requires OnlyAt(s, s', id) && (id in s.sends ==> s'.lost[id] == s.lost[id])
    ensures RowsStay(s, s')
  {
    forall k | k in s.sends ensures s'.lost[k] == s.lost[k] {
      assert k != id ==> s'.lost[k] == s.lost[k];
    }
  }

  lemma {:induction false} OkRunKeepsRows(s: State, actions: seq<Action>)
    requires Inv(s) && OkRun(s, actions)
    ensures RowsStay(s, Run(s, actions)) && Inv(Run(s, actions))
    decreases |actions|
  {
    if actions != [] {
      var s1 := Apply(s, actions[0]);
      OkStepKeepsRows(s, actions[0]);
      WorkerStepKeepsInv(s, actions[0]);
      OkRunKeepsRows(s1, actions[1..]);
      RowsTrans(s, s1, Run(s1, actions[1..]));
    }
  }

  lemma RowsTrans(s: State, s1: State, s2: State)
    requires RowsStay(s, s1) && RowsStay(s1, s2)
    ensures RowsStay(s, s2)
  {
    forall id | id in s.sends ensures SamePair(s.sends[id], s2.sends[id]) && s2.lost[id] == s.lost[id] {
      assert SamePair(s.sends[id], s1.sends[id]) && SamePair(s1.sends[id], s2.sends[id]);
    }
  }

  // ---------- Delivery ----------

  /** The row is stamped, and its mails are one more than its lost stamps. */
  predicate Delivered(s: State, id: SendId) {
    id in s.sends && s.sends[id].sent && s.log[Mail(id, s.sends[id].campaign)] == 1 + s.lost[id]
  }

  /** The pair has a row of the campaign, and it is delivered. */
  ghost predicate PairDelivered(s: State, c: CampaignId, e: EmployeeId, sc: ScenarioId) {
    exists id :: RowOf(s.sends, id, c, e, sc) && Delivered(s, id)
  }

  predicate RowOf(sends: map<SendId, Send>, id: SendId, c: CampaignId, e: EmployeeId, sc: ScenarioId) {
    id in sends && sends[id].campaign == c && sends[id].employee == e && sends[id].scenario == sc
  }

  lemma PairsDelivered(s1: State, s2: State, c: CampaignId, e: EmployeeId, sc: ScenarioId)
    requires RowsStay(s1, s2) && Inv(s2) && Unsent(s2, c) == {} && HasRow(s1.sends, c, e, sc)
    ensures PairDelivered(s2, c, e, sc)
  {
    var id :| id in s1.sends && s1.sends[id].campaign == c && s1.sends[id].employee == e && s1.sends[id].scenario == sc;
    assert SamePair(s1.sends[id], s2.sends[id]);
    assert id !in Unsent(s2, c);
    assert RowOk(s2, id);
    assert RowOf(s2.sends, id, c, e, sc) && Delivered(s2, id);
  }

  /**
   When a campaign is launched, from any reachable state, and its workers then run without failures until they are
   idle, no row of it is unsent exactly when none had a leftover job or a worker that had given it up; and then every
   recipient and scenario of the campaign has a row that is stamped and was mailed once more than its stamp was lost.
   */
  lemma LaunchDelivers(before: seq<Action>, c: CampaignId, env: Env, after: seq<Action>)
    requires Launch(Run(EMPTY, before), c, env).1.Ok?
    requires var s1 := Launch(Run(EMPTY, before), c, env).0; OkRun(s1, after) && Idle(Run(s1, after))
    ensures
      var s := Run(EMPTY, before);
      var s2 := Run(Launch(s, c, env).0, after);
      && (Unsent(s2, c) == {} <==> !Leftover(s, c) && !GivenUp(s, c))
      && (Unsent(s2, c) == {} ==>
            forall e, sc :: Wanted(e, sc, s.campaigns[c], env) ==> PairDelivered(s2, c, e, sc))
  {
    var s := Run(EMPTY, before);
    var s1 := Launch(s, c, env).0;
    var s2 := Run(s1, after);
    RunKeepsInv(EMPTY, before);
    LaunchKeepsInv(s, c, env);
    LaunchGoing(s, c, env);
    LaunchCreatesProduct(s, c, env);
    DeliveredIffGoing(s1, after, c);
    OkRunKeepsRows(s1, after);
    if Unsent(s2, c) == {} {
      forall e, sc | Wanted(e, sc, s.campaigns[c], env) ensures PairDelivered(s2, c, e, sc) {
        PairsDelivered(s1, s2, c, e, sc);
      }
    }
  }

  /** Every row of the campaign is delivered, with one mail. */
  ghost predicate AllMailedOnce(s: State, c: CampaignId) {
    forall id :: id in Rows(s, c) ==> s.sends[id].sent && s.log[Mail(id, c)] == 1
  }

  /** For a draft nothing can be stuck: its rows are exactly the product of its recipients and scenarios, and in the
      end each of them is stamped and was mailed exactly once. */
  lemma DraftDelivers(before: seq<Action>, c: CampaignId, env: Env, after: seq<Action>)
    requires HasStatus(Run(EMPTY, before), c, Draft) && Launch(Run(EMPTY, before), c, env).1.Ok?
    requires var s1 := Launch(Run(EMPTY, before), c, env).0; OkRun(s1, after) && Idle(Run(s1, after))
    ensures
      var s := Run(EMPTY, before);
      var s2 := Run(Launch(s, c, env).0, after);
      AllMailedOnce(s2, c) && forall e, sc :: HasRow(s2.sends, c, e, sc) <==> Wanted(e, sc, s.campaigns[c], env)
  {
    var s := Run(EMPTY, before);
    var s1 := Launch(s, c, env).0;
    RunKeepsInv(EMPTY, before);
    RunKeepsDraft(EMPTY, before);
    assert forall id :: id in s.sends ==> s.sends[id].campaign != c;
    assert Unsent(s, c) == {};
    LaunchDelivers(before, c, env, after);
    LaunchKeepsInv(s, c, env);
    OkRunKeepsRows(s1, after);
    FreshRows(s, c, env, Run(s1, after));
  }

  lemma FreshRows(s: State, c: CampaignId, env: Env, s2: State)
    requires Inv(s) && Inv(s2) && Launch(s, c, env).1.Ok? && RowsStay(Launch(s, c, env).0, s2)
    requires (forall id :: id in s.sends ==> s.sends[id].campaign != c) && Unsent(s2, c) == {}
    ensures AllMailedOnce(s2, c) && forall e, sc :: HasRow(s2.sends, c, e, sc) <==> Wanted(e, sc, s.campaigns[c], env)
  {
    var s1 := Launch(s, c, env).0;
    LaunchCreatesProduct(s, c, env);
    LaunchActivates(s, c, env);
    FreshMailed(s, s1, s2, c);
    forall e, sc ensures HasRow(s2.sends, c, e, sc) <==> Wanted(e, sc, s.campaigns[c], env) {
      NoRowBefore(s, c, e, sc);
      RowsSame(s1, s2, c, e, sc);
    }
  }

  lemma NoRowBefore(s: State, c: CampaignId, e: EmployeeId, sc: ScenarioId)
    requires forall id :: id in s.sends ==> s.sends[id].campaign != c
    ensures !HasRow(s.sends, c, e, sc)
  {
  }

  lemma RowsSame(s1: State, s2: State, c: CampaignId, e: EmployeeId, sc: ScenarioId)
    requires RowsStay(s1, s2)
    ensures HasRow(s1.sends, c, e, sc) <==> HasRow(s2.sends, c, e, sc)
  {
    if HasRow(s1.sends, c, e, sc) {
      var id :| id in s1.sends && s1.sends[id].campaign == c && s1.sends[id].employee == e
          && s1.sends[id].scenario == sc;
      assert SamePair(s1.sends[id], s2.sends[id]);
    }
    if HasRow(s2.sends, c, e, sc) {
      var id :| id in s2.sends && s2.sends[id].campaign == c && s2.sends[id].employee == e
          && s2.sends[id].scenario == sc;
      assert id in s1.sends && SamePair(s1.sends[id], s2.sends[id]);
    }
  }

  lemma FreshMailed(s: State, s1: State, s2: State, c: CampaignId)
    requires Inv(s) && Inv(s2) && RowsStay(s1, s2) && OnlyNewRows(s, s1, c) && s1.lost == s.lost
    requires (forall id :: id in s.sends ==> s.sends[id].campaign != c) && Unsent(s2, c) == {}
    ensures AllMailedOnce(s2, c)
  {
    forall id | id in Rows(s2, c) ensures s2.sends[id].sent && s2.log[Mail(id, c)] == 1 {
      assert id in s1.sends && SamePair(s1.sends[id], s2.sends[id]);
      assert id !in s.sends && s.nextSend <= id;
      assert id !in s.lost;
      assert id !in Unsent(s2, c);
      assert RowOk(s2, id);
    }
  }
}
