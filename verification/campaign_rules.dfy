/** What each call of the campaign service does to the state, clause by clause, and what it answers. */
module CampaignRules {
  import opened Wrappers
  import opened CampaignProtocol
  import opened CampaignInvariants
  import opened CampaignLaunch

  // ---------- Which status leads to which ----------

  /** Every call or step of anybody, and every campaign there is: these are all the ways a status changes. */
  lemma StatusChanges(s: State, a: Action, c: CampaignId)
    requires IdsInv(s) && c in s.campaigns
    ensures
      var (before, s') := (s.campaigns[c].status, Apply(s, a));
      c in s'.campaigns && s'.campaigns[c].status ==
        if a.DoLaunch? && a.c == c && (before == Draft || before == Paused) && Launchable(s.campaigns[c], a.env)
          then Active
        else if a.DoPause? && a.c == c && before == Active then Paused
        else if a.DoResume? && a.c == c && before == Paused then Active
        else if a.DoKill? && a.c == c then Killed
        else before
  {
    if WorkerStep(a) {
      WorkerCampaigns(s, a);
    } else if a.DoLaunch? {
      LaunchStatus(s, a.c, a.env, c);
    } else if a.DoPause? || a.DoResume? || a.DoKill? {
      CallStatus(s, a, c);
    } else {
      OtherStatus(s, a, c);
    }
  }

  lemma WorkerCampaigns(s: State, a: Action)
    requires WorkerStep(a)
    ensures Apply(s, a).campaigns == s.campaigns
  {
  }

  lemma LaunchStatus(s: State, d: CampaignId, env: Env, c: CampaignId)
    requires IdsInv(s) && c in s.campaigns
    ensures
      var (before, s') := (s.campaigns[c].status, Launch(s, d, env).0);
      c in s'.campaigns && s'.campaigns[c].status ==
        if d == c && (before == Draft || before == Paused) && Launchable(s.campaigns[c], env) then Active else before
  {
    LaunchAllowedIff(s, d, env);
    assert c < s.nextCampaign;
  }

  lemma CallStatus(s: State, a: Action, c: CampaignId)
    requires c in s.campaigns && (a.DoPause? || a.DoResume? || a.DoKill?)
    ensures
      var (before, s') := (s.campaigns[c].status, Apply(s, a));
      c in s'.campaigns && s'.campaigns[c].status ==
        if a.DoPause? && a.c == c && before == Active then Paused
        else if a.DoResume? && a.c == c && before == Paused then Active
        else if a.DoKill? && a.c == c then Killed
        else before
  {
  }

  lemma OtherStatus(s: State, a: Action, c: CampaignId)
    requires IdsInv(s) && c in s.campaigns
    requires a.DoCreate? || a.DoSchedule? || a.DoRetry? || a.SetDomain? || a.Evict? || a.RemoveEmployee?
    ensures c in Apply(s, a).campaigns && Apply(s, a).campaigns[c].status == s.campaigns[c].status
  {
    assert c < s.nextCampaign;
  }

  /** Why a call on a campaign in the wrong status is refused. */
  function Refused(s: State, c: CampaignId): Refusal {
    if c in s.campaigns then WrongStatus(s.campaigns[c].status) else NotFound
  }

  /** Pause needs an active campaign, resume a paused one, retryUnsent an active one, schedule a draft, and kill any
      campaign at all; a refusal names the status, or says that there is no such campaign, and changes nothing. */
  lemma CallsRefused(s: State, c: CampaignId, at: Option<int>)
    ensures Pause(s, c).1 == if HasStatus(s, c, Active) then None else Some(Refused(s, c))
    ensures Resume(s, c).1.Ok? <==> HasStatus(s, c, Paused)
    ensures RetryUnsent(s, c).1.Ok? <==> HasStatus(s, c, Active)
    ensures Schedule(s, c, at).1 == if HasStatus(s, c, Draft) then None else Some(Refused(s, c))
    ensures Kill(s, c).1.Ok? <==> c in s.campaigns
    ensures Pause(s, c).1.Some? ==> Pause(s, c).0 == s
    ensures Schedule(s, c, at).1.Some? ==> Schedule(s, c, at).0 == s
    ensures Resume(s, c).1.Err? ==> Resume(s, c) == (s, Err(Refused(s, c)))
    ensures RetryUnsent(s, c).1.Err? ==> RetryUnsent(s, c) == (s, Err(Refused(s, c)))
    ensures Kill(s, c).1.Err? ==> Kill(s, c) == (s, Err(NotFound))
  {
  }

  /** Why the launch of a draft or paused campaign is refused: a gate first, then that nobody is chosen, and then that
      nobody chosen is on a verified domain. Any other refusal names the status. */
  lemma LaunchRefused(s: State, c: CampaignId, env: Env)
    requires Launch(s, c, env).1.Err?
    ensures !HasStatus(s, c, Draft) && !HasStatus(s, c, Paused) ==> Launch(s, c, env) == (s, Err(Refused(s, c)))
    ensures HasStatus(s, c, Draft) || HasStatus(s, c, Paused) ==>
              var campaign := s.campaigns[c];
              var gates := env.agreementSigned && env.trackingConfigured && env.allowlistConfirmed
                           && campaign.scenarios != [] && campaign.sendingDomain.Some?
                           && campaign.sendingDomain.value in env.verifiedSenders;
              var chosen := exists e :: e in env.roster && (campaign.targets == {} || e.id in campaign.targets);
              Launch(s, c, env) == (s, Err(if !gates || env.roster == [] then NotReady
                                           else if !chosen then NoRecipients
                                           else NoVerifiedRecipients))
  {
    if c in s.campaigns {
      NobodySelected(env.roster, s.campaigns[c].targets);
    }
  }

  lemma NobodySelected(roster: seq<Employee>, targets: set<EmployeeId>)
    ensures Selected(roster, targets) != [] <==> exists e :: e in roster && (targets == {} || e.id in targets)
  {
    forall e ensures e in Selected(roster, targets) <==> e in roster && (targets == {} || e.id in targets) {
      SelectedExact(roster, targets, e);
    }
    if Selected(roster, targets) != [] {
      assert Selected(roster, targets)[0] in Selected(roster, targets);
    }
  }

  // ---------- What a new draft keeps ----------

  /** A new campaign is a draft with all that was chosen for it, under an id nobody has had; nothing else changes. A
      campaign without scenarios is not made. */
  lemma CreateExact(s: State, campaign: Campaign)
    requires IdsInv(s)
    ensures
      var (s', n) := (Create(s, campaign), s.nextCampaign);
      if campaign.scenarios == [] then s' == s
      else
        && n !in s.campaigns && s'.campaigns.Keys == s.campaigns.Keys + {n} && s'.campaigns - {n} == s.campaigns
        && s'.campaigns[n].status == Draft && s'.campaigns[n].parent == None
        && s'.campaigns[n].targets == campaign.targets && s'.campaigns[n].sendingDomain == campaign.sendingDomain
        && s'.campaigns[n].scheduledSendAt == campaign.scheduledSendAt
        && s'.campaigns[n].recurrenceDays == campaign.recurrenceDays
        && s'.campaigns[n].sendWindowMinutes == campaign.sendWindowMinutes
        && s'.campaigns[n].scenarios == campaign.scenarios
        && s' == s.(campaigns := s'.campaigns, nextCampaign := s'.nextCampaign) && s'.nextCampaign > n
  {
    assert s.nextCampaign !in s.campaigns;
  }

  // ---------- What the calls do to the queue, and what they report ----------

  /** The jobs that were there are as they were, and these ids have gained a fresh waiting job each. */
  ghost predicate Gains(jobs: map<SendId, Job>, jobs': map<SendId, Job>, ids: set<SendId>, c: CampaignId) {
    && jobs'.Keys == jobs.Keys + ids
    && (forall id :: id in jobs ==> jobs'[id] == jobs[id])
    && (forall id :: id in ids && id !in jobs ==> jobs'[id] == Job(Waiting, 0, c))
  }

  lemma AddJobsGains(jobs: map<SendId, Job>, ids: set<SendId>, c: CampaignId)
    ensures Gains(jobs, AddJobs(jobs, ids, c), ids, c)
  {
  }

  /** A launch queues the unsent rows that have no job, and reports how many rows are unsent; rows of other campaigns,
      workers, mails and lost stamps are as they were. */
  lemma LaunchQueuesExactly(s: State, c: CampaignId, env: Env)
    requires Inv(s) && Launch(s, c, env).1.Ok?
    ensures
      var (s', r) := Launch(s, c, env);
      && Gains(s.jobs, s'.jobs, Unsent(s', c), c) && r == Ok(|Unsent(s', c)|)
      && s'.workers == s.workers && s'.log == s.log && s'.lost == s.lost
      && (forall d :: d != c ==> Rows(s', d) == Rows(s, d))
  {
    var s1 := Activate(s, c, env);
    ActivateRows(s, c, env);
    LaunchActivates(s, c, env);
    AddJobsGains(s.jobs, Unsent(s1, c), c);
    OtherRows(s, s1, c);
  }

  lemma OtherRows(s: State, s': State, c: CampaignId)
    requires OnlyNewRows(s, s', c)
    ensures forall d :: d != c ==> Rows(s', d) == Rows(s, d)
  {
    forall d | d != c ensures Rows(s', d) == Rows(s, d) {
      assert forall id :: id in Rows(s', d) <==> id in Rows(s, d);
    }
  }

  /** resume makes the campaign active, queues the unsent rows that have no job, and reports how many are unsent. */
  lemma ResumeExact(s: State, c: CampaignId)
    requires HasStatus(s, c, Paused)
    ensures
      var (s', r) := Resume(s, c);
      && s' == s.(campaigns := s.campaigns[c := s.campaigns[c].(status := Active)], jobs := s'.jobs)
      && Gains(s.jobs, s'.jobs, Unsent(s, c), c) && r == Ok(|Unsent(s, c)|)
  {
    assert Unsent(SetStatus(s, c, Active), c) == Unsent(s, c);
    AddJobsGains(s.jobs, Unsent(s, c), c);
  }

  /** The jobs of the campaign's unsent rows that no worker holds. */
  function Replaceable(s: State, c: CampaignId): set<SendId> {
    set id | id in s.sends && s.sends[id].campaign == c && !s.sends[id].sent
             && id in s.jobs && s.jobs[id].state != Running
  }

  /** retryUnsent replaces the jobs of the unsent rows by fresh ones, but for those that workers hold, and reports the
      unsent rows and the jobs it replaced. */
  lemma RetryExact(s: State, c: CampaignId)
    requires HasStatus(s, c, Active)
    ensures
      var (s', r) := RetryUnsent(s, c);
      && s' == s.(jobs := s'.jobs) && Gains(s.jobs - Replaceable(s, c), s'.jobs, Unsent(s, c), c)
      && r == Ok(RetryReport(|Unsent(s, c)|, |Replaceable(s, c)|))
  {
    assert Removable(s.jobs, Unsent(s, c)) == Replaceable(s, c);
    AddJobsGains(s.jobs - Replaceable(s, c), Unsent(s, c), c);
  }

  /** kill sets the status and takes exactly these jobs away; killing again does nothing and reports no jobs. */
  lemma KillExact(s: State, c: CampaignId)
    requires c in s.campaigns
    ensures Kill(s, c) ==
      if s.campaigns[c].status == Killed then (s, Ok(KillReport(0, None)))
      else (s.(campaigns := s.campaigns[c := s.campaigns[c].(status := Killed)], jobs := s.jobs - Replaceable(s, c)),
            Ok(KillReport(|Replaceable(s, c)|, Some(|Unsent(s, c)|))))
  {
    assert Removable(s.jobs, Unsent(s, c)) == Replaceable(s, c);
  }

  // ---------- A tick, campaign by campaign ----------

  /** The tick's list: each due campaign once, with what its launch will find. */
  ghost predicate ListsDue(s: State, now: int, envOf: CampaignId -> Env, order: seq<(CampaignId, Env)>) {
    && Distinct(order)
    && (forall c :: c in Due(s, now) <==> exists i :: 0 <= i < |order| && order[i].0 == c)
    && (forall i :: 0 <= i < |order| ==> order[i].1 == envOf(order[i].0))
  }

  /** What a tick does to a campaign: a draft whose time has come is active afterwards exactly when it is launchable;
      if it is not, and for every other campaign, the record is as it was. */
  ghost predicate Ticked(s: State, s': State, now: int, c: CampaignId, env: Env)
    requires c in s.campaigns
  {
    var campaign := s.campaigns[c];
    var goes := campaign.status == Draft && campaign.scheduledSendAt.Some? && campaign.scheduledSendAt.value <= now
                && Launchable(campaign, env);
    c in s'.campaigns && if goes then s'.campaigns[c] == campaign.(status := Active) else s'.campaigns[c] == campaign
  }

  lemma TickExact(s: State, now: int, envOf: CampaignId -> Env, order: seq<(CampaignId, Env)>, c: CampaignId)
    requires Inv(s) && ListsDue(s, now, envOf, order) && c in s.campaigns
    ensures Ticked(s, LaunchAll(s, order).0, now, c, envOf(c))
  {
    forall i | 0 <= i < |order| ensures order[i].0 in s.campaigns {
      assert order[i].0 in Due(s, now);
    }
    if c in Due(s, now) {
      var i :| 0 <= i < |order| && order[i].0 == c;
      LaunchedOnTick(s, order, i);
      LaunchableIs(s.campaigns[c], envOf(c));
    } else {
      LaunchAllLeaves(s, order, c);
    }
  }

  /** The launched record differs in its status alone. */
  lemma {:induction false} LaunchedOnTick(s: State, order: seq<(CampaignId, Env)>, i: nat)
    requires Inv(s) && Distinct(order) && forall j :: 0 <= j < |order| ==> order[j].0 in s.campaigns
    requires i < |order| && HasStatus(s, order[i].0, Draft)
    ensures
      var (c, s') := (order[i].0, LaunchAll(s, order).0);
      c in s'.campaigns && s'.campaigns[c] ==
        if LaunchRefusal(s, c, order[i].1).None? then s.campaigns[c].(status := Active) else s.campaigns[c]
    decreases |order|
  {
    var (d, env) := order[0];
    var (s1, rest) := (Launch(s, d, env).0, order[1..]);
    DistinctNext(s, order);
    LaunchKeepsInv(s, d, env);
    LaunchLeavesAll(s, d, env, rest);
    if i == 0 {
      LaunchedRecord(s, d, env);
      LaunchAllLeaves(s1, rest, d);
    } else {
      LaunchedOnTick(s1, rest, i - 1);
    }
  }

  lemma LaunchedRecord(s: State, c: CampaignId, env: Env)
    requires Inv(s) && HasStatus(s, c, Draft)
    ensures c in Launch(s, c, env).0.campaigns
    ensures Launch(s, c, env).0.campaigns[c] ==
              if LaunchRefusal(s, c, env).None? then s.campaigns[c].(status := Active) else s.campaigns[c]
  {
    if LaunchRefusal(s, c, env).None? { LaunchClones(s, c, env); }
  }

  /** The campaigns of a list whose launch is acceptable. */
  function Going(s: State, order: seq<(CampaignId, Env)>): set<CampaignId> {
    set i | 0 <= i < |order| && LaunchRefusal(s, order[i].0, order[i].1).None? :: order[i].0
  }

  lemma {:induction false} AcceptedCount(s: State, order: seq<(CampaignId, Env)>)
    requires Distinct(order)
    ensures Accepted(s, order) == |Going(s, order)|
    decreases |order|
  {
    if order != [] {
      var rest, first := order[1..], order[0];
      assert forall i :: 0 <= i < |rest| ==> rest[i] == order[i + 1];
      AcceptedCount(s, rest);
      GoingNext(s, order);
    }
  }

  lemma GoingNext(s: State, order: seq<(CampaignId, Env)>)
    requires Distinct(order) && order != []
    ensures order[0].0 !in Going(s, order[1..])
    ensures Going(s, order)
            == Going(s, order[1..]) + if LaunchRefusal(s, order[0].0, order[0].1).None? then {order[0].0} else {}
  {
    var rest := order[1..];
    assert forall i :: 0 <= i < |rest| ==> rest[i] == order[i + 1];
    forall c | c in Going(s, rest) ensures c in Going(s, order) {
      var i :| 0 <= i < |rest| && LaunchRefusal(s, rest[i].0, rest[i].1).None? && rest[i].0 == c;
      assert order[i + 1].0 == c;
    }
    forall c | c in Going(s, order) && c != order[0].0 ensures c in Going(s, rest) {
      var i :| 0 <= i < |order| && LaunchRefusal(s, order[i].0, order[i].1).None? && order[i].0 == c;
      assert rest[i - 1].0 == c;
    }
  }

  /** The drafts scheduled for this moment or before it, and those of them that are launchable. */
  function DueDrafts(s: State, now: int): set<CampaignId> {
    set c | c in s.campaigns && s.campaigns[c].status == Draft
            && s.campaigns[c].scheduledSendAt.Some? && s.campaigns[c].scheduledSendAt.value <= now
  }

  function DueLaunchable(s: State, now: int, envOf: CampaignId -> Env): set<CampaignId> {
    set c | c in DueDrafts(s, now) && c in s.campaigns && Launchable(s.campaigns[c], envOf(c))
  }

  lemma DueIs(s: State, now: int)
    ensures Due(s, now) == DueDrafts(s, now)
  {
  }

  lemma GoingIs(s: State, now: int, envOf: CampaignId -> Env, order: seq<(CampaignId, Env)>, c: CampaignId)
    requires ListsDue(s, now, envOf, order)
    ensures c in Going(s, order) <==> c in DueLaunchable(s, now, envOf)
  {
    DueIs(s, now);
    if c in s.campaigns { LaunchableIs(s.campaigns[c], envOf(c)); }
    if c in Due(s, now) {
      var i :| 0 <= i < |order| && order[i].0 == c;
      assert LaunchRefusal(s, order[i].0, order[i].1).None? ==> order[i].0 in Going(s, order);
    }
    if c in Going(s, order) {
      var i :| 0 <= i < |order| && LaunchRefusal(s, order[i].0, order[i].1).None? && order[i].0 == c;
      assert c in Due(s, now);
    }
  }

  /** The numbers a tick reports are those of the drafts that are due and of the launchable ones among them. */
  lemma TickCounts(s: State, now: int, envOf: CampaignId -> Env, order: seq<(CampaignId, Env)>)
    requires Inv(s) && ListsDue(s, now, envOf, order)
    ensures LaunchAll(s, order).1 == |DueLaunchable(s, now, envOf)|
  {
    forall i | 0 <= i < |order| ensures order[i].0 in s.campaigns {
      assert order[i].0 in Due(s, now);
    }
    TickLaunchesAccepted(s, order);
    AcceptedCount(s, order);
    forall c ensures c in Going(s, order) <==> c in DueLaunchable(s, now, envOf) {
      GoingIs(s, now, envOf, order, c);
    }
    assert Going(s, order) == DueLaunchable(s, now, envOf);
  }

  lemma TickAll(s: State, now: int, envOf: CampaignId -> Env, order: seq<(CampaignId, Env)>)
    requires Inv(s) && ListsDue(s, now, envOf, order)
    ensures TickedAll(s, LaunchAll(s, order).0, now, envOf)
  {
    forall c | c in s.campaigns ensures Ticked(s, LaunchAll(s, order).0, now, c, envOf(c)) {
      TickExact(s, now, envOf, order, c);
    }
  }

  ghost predicate TickedAll(s: State, s': State, now: int, envOf: CampaignId -> Env) {
    forall c :: c in s.campaigns ==> Ticked(s, s', now, c, envOf(c))
  }
}
