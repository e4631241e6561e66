/**
 What every reachable state of the campaign protocol keeps: the queue and the workers
 agree, each pair of recipient and scenario has one row, and mails are conserved.
 */
module CampaignInvariants {
  import opened Wrappers
  import opened CampaignProtocol

  // ---------- The invariant ----------

  /** Ids come from the counters, and rows and jobs name existing campaigns. */
  ghost predicate IdsInv(s: State) {
    && (forall c :: c in s.campaigns ==> c < s.nextCampaign)
    && (forall id :: id in s.sends ==> id < s.nextSend && s.sends[id].campaign in s.campaigns)
    && (forall id :: id in s.jobs ==> id < s.nextSend && s.jobs[id].campaign in s.campaigns)
    && (forall id :: id in s.jobs && id in s.sends ==> s.jobs[id].campaign == s.sends[id].campaign)
  }

  /** A job is running exactly when a worker holds it, so no row has two workers. */
  ghost predicate QueueInv(s: State) {
    forall id :: id in s.workers <==> id in s.jobs && s.jobs[id].state == Running
  }

  /** At most one row per campaign, recipient and scenario. */
  ghost predicate RowsInv(s: State) {
    forall i, j :: i in s.sends && j in s.sends && SamePair(s.sends[i], s.sends[j]) ==> i == j
  }

  predicate SamePair(a: Send, b: Send) {
    a.campaign == b.campaign && a.employee == b.employee && a.scenario == b.scenario
  }

  predicate PastCheck(phase: Phase) {
    phase == Checked || phase == Rendered || phase == Mailed
  }

  /** Mails of a row = its lost stamps, plus one if it is stamped or its worker has mailed but not stamped. */
  predicate Conserved(s: State, id: SendId)
    requires id in s.sends
  {
    s.log[Mail(id, s.sends[id].campaign)] == s.lost[id] + if s.sends[id].sent || InPhase(s, id, Mailed) then 1 else 0
  }

  /** A row's mails are conserved, and it is unstamped while a worker is past its check. */
  predicate RowOk(s: State, id: SendId)
    requires id in s.sends
  {
    Conserved(s, id) && (id in s.workers && PastCheck(s.workers[id]) ==> !s.sends[id].sent)
  }

  /** Nothing has happened to ids that were never given out. */
  ghost predicate FreshInv(s: State) {
    && (forall m :: m in s.log ==> m.send < s.nextSend && m.campaign in s.campaigns)
    && (forall id :: id in s.lost ==> id < s.nextSend)
  }

  ghost predicate MailInv(s: State) {
    FreshInv(s) && forall id :: id in s.sends ==> RowOk(s, id)
  }

  /** A clone points at a root, and keeps its scenarios, window and recurrence. */
  ghost predicate LineageInv(s: State) {
    forall c :: c in s.campaigns && s.campaigns[c].parent.Some? ==>
      var root := s.campaigns[c].parent.value;
      root in s.campaigns && s.campaigns[root].parent == None && SameSchedule(s.campaigns[c], s.campaigns[root])
  }

  predicate SameSchedule(a: Campaign, b: Campaign) {
    a.scenarios == b.scenarios && a.sendWindowMinutes == b.sendWindowMinutes && a.recurrenceDays == b.recurrenceDays
  }

  ghost predicate Inv(s: State) {
    IdsInv(s) && QueueInv(s) && RowsInv(s) && MailInv(s) && LineageInv(s)
  }

  // ---------- CreateMany ----------

  ghost predicate RowsOk(sends: map<SendId, Send>, next: SendId) {
    && (forall id :: id in sends ==> id < next)
    && (forall i, j :: i in sends && j in sends && SamePair(sends[i], sends[j]) ==> i == j)
  }

  predicate FreshRow(row: Send, c: CampaignId, pairs: seq<(EmployeeId, ScenarioId)>) {
    row.campaign == c && !row.sent && (row.employee, row.scenario) in pairs
  }

  /** `after` holds every old row, and besides them only unsent rows of asked pairs that had none. */
  ghost predicate Extends(sends: map<SendId, Send>, next: SendId, after: map<SendId, Send>, c: CampaignId,
      pairs: seq<(EmployeeId, ScenarioId)>) {
    && (forall id :: id in sends ==> id in after && after[id] == sends[id])
    && (forall id :: id in after && id !in sends ==>
          next <= id && FreshRow(after[id], c, pairs) && !HasRow(sends, c, after[id].employee, after[id].scenario))
  }

  lemma HasRowKept(sends: map<SendId, Send>, after: map<SendId, Send>, c: CampaignId, e: EmployeeId, sc: ScenarioId)
    requires forall id :: id in sends ==> id in after && after[id] == sends[id]
    ensures HasRow(sends, c, e, sc) ==> HasRow(after, c, e, sc)
  {
    if HasRow(sends, c, e, sc) {
      var id :| id in sends && sends[id].campaign == c && sends[id].employee == e && sends[id].scenario == sc;
      assert id in after;
    }
  }

  lemma ExtendsOne(sends: map<SendId, Send>, next: SendId, c: CampaignId, p: (EmployeeId, ScenarioId))
    requires RowsOk(sends, next) && !HasRow(sends, c, p.0, p.1)
    ensures
      var sends1 := sends[next := Send(c, p.0, p.1, false)];
      RowsOk(sends1, next + 1) && Extends(sends, next, sends1, c, [p]) && HasRow(sends1, c, p.0, p.1)
  {
    var sends1 := sends[next := Send(c, p.0, p.1, false)];
    assert sends1[next].campaign == c;
    assert forall k :: k in sends ==> !SamePair(sends[k], sends1[next]);
  }

  lemma ExtendsTrans(s0: map<SendId, Send>, n0: SendId, s1: map<SendId, Send>, n1: SendId, s2: map<SendId, Send>,
                     c: CampaignId, p: (EmployeeId, ScenarioId), pairs: seq<(EmployeeId, ScenarioId)>)
    requires n0 <= n1 && pairs != [] && p == pairs[0]
    requires Extends(s0, n0, s1, c, [p]) && Extends(s1, n1, s2, c, pairs[1..])
    ensures Extends(s0, n0, s2, c, pairs)
  {
    forall id | id in s2 && id !in s0
      ensures n0 <= id && FreshRow(s2[id], c, pairs) && !HasRow(s0, c, s2[id].employee, s2[id].scenario)
    {
      HasRowKept(s0, s1, c, s2[id].employee, s2[id].scenario);
    }
  }

  /** createMany keeps every old row, adds only unsent rows of asked pairs that had none, and leaves no pair without
      a row. */
  lemma {:induction false} CreateManyExact(sends: map<SendId, Send>, next: SendId, c: CampaignId,
      pairs: seq<(EmployeeId, ScenarioId)>)
    requires RowsOk(sends, next)
    ensures
      var (after, next') := CreateMany(sends, next, c, pairs);
      && RowsOk(after, next') && next <= next'
      && Extends(sends, next, after, c, pairs)
      && (forall p :: p in pairs ==> HasRow(after, c, p.0, p.1))
    decreases |pairs|
  {
    if pairs != [] {
      var p, rest := pairs[0], pairs[1..];
      var (after, next') := CreateMany(sends, next, c, pairs);
      if HasRow(sends, c, p.0, p.1) {
        CreateManyExact(sends, next, c, rest);
        HasRowKept(sends, after, c, p.0, p.1);
        assert Extends(sends, next, sends, c, [p]);
        ExtendsTrans(sends, next, sends, next, after, c, p, pairs);
      } else {
        var sends1 := sends[next := Send(c, p.0, p.1, false)];
        ExtendsOne(sends, next, c, p);
        CreateManyExact(sends1, next + 1, c, rest);
        HasRowKept(sends1, after, c, p.0, p.1);
        ExtendsTrans(sends, next, sends1, next + 1, after, c, p, pairs);
      }
      forall q | q in pairs ensures HasRow(after, c, q.0, q.1) {
        assert q == p || q in rest;
      }
    }
  }

  // ---------- Service steps keep the invariant ----------

  /** A service step changes campaign records and removes or adds jobs, and nothing else:
      it never touches a running job, and a job it adds is a waiting one for a row of that campaign. */
  ghost predicate ServiceOnly(s: State, s': State) {
    && s'.sends == s.sends && s'.nextSend == s.nextSend && s'.workers == s.workers
    && s'.log == s.log && s'.lost == s.lost
    && s.campaigns.Keys <= s'.campaigns.Keys
    && QueueOnly(s.sends, s.jobs, s'.jobs)
  }

  ghost predicate QueueOnly(sends: map<SendId, Send>, jobs: map<SendId, Job>, jobs': map<SendId, Job>) {
    && (forall id :: id in jobs && jobs[id].state == Running ==> id in jobs' && jobs'[id] == jobs[id])
    && (forall id :: id in jobs' ==>
          || (id in jobs && jobs'[id] == jobs[id])
          || (id in sends && jobs'[id] == Job(Waiting, 0, sends[id].campaign)))
  }

  lemma QueueFrame(s: State, c: CampaignId)
    ensures QueueOnly(s.sends, s.jobs, AddJobs(s.jobs, Unsent(s, c), c))
    ensures QueueOnly(s.sends, s.jobs, s.jobs - Removable(s.jobs, Unsent(s, c)))
    ensures QueueOnly(s.sends, s.jobs, AddJobs(s.jobs - Removable(s.jobs, Unsent(s, c)), Unsent(s, c), c))
  {
  }

  ghost predicate CampaignsOk(s: State) {
    (forall c :: c in s.campaigns ==> c < s.nextCampaign) && LineageInv(s)
  }

  lemma ServiceOnlyKeepsInv(s: State, s': State)
    requires Inv(s) && ServiceOnly(s, s') && CampaignsOk(s')
    ensures Inv(s')
  {
    assert forall id :: id in s.sends ==> RowOk(s, id) ==> RowOk(s', id);
  }

  /** Setting fields other than the parent, scenarios, window and recurrence keeps the lineage. */
  lemma EditKeepsInv(s: State, c: CampaignId, edited: Campaign, jobs: map<SendId, Job>)
    requires Inv(s) && c in s.campaigns && edited.parent == s.campaigns[c].parent
        && SameSchedule(edited, s.campaigns[c])
    requires QueueOnly(s.sends, s.jobs, jobs)
    ensures Inv(s.(campaigns := s.campaigns[c := edited], jobs := jobs))
  {
    ServiceOnlyKeepsInv(s, s.(campaigns := s.campaigns[c := edited], jobs := jobs));
  }

  lemma CreateKeepsInv(s: State, campaign: Campaign)
    requires Inv(s)
    ensures Inv(Create(s, campaign))
  {
    ServiceOnlyKeepsInv(s, Create(s, campaign));
  }

  lemma ScheduleNextKeepsInv(s: State, c: CampaignId, campaign: Campaign, now: int)
    requires Inv(s) && c in s.campaigns && s.campaigns[c].parent == campaign.parent
    requires SameSchedule(s.campaigns[c], campaign)
    ensures Inv(ScheduleNext(s, c, campaign, now))
  {
    ServiceOnlyKeepsInv(s, ScheduleNext(s, c, campaign, now));
  }

  lemma ResumeKeepsInv(s: State, c: CampaignId)
    requires Inv(s)
    ensures Inv(Resume(s, c).0)
  {
    if HasStatus(s, c, Paused) {
      assert Unsent(SetStatus(s, c, Active), c) == Unsent(s, c);
      QueueFrame(s, c);
      EditKeepsInv(s, c, s.campaigns[c].(status := Active), AddJobs(s.jobs, Unsent(s, c), c));
    }
  }

  lemma KillKeepsInv(s: State, c: CampaignId)
    requires Inv(s)
    ensures Inv(Kill(s, c).0)
  {
    if c in s.campaigns {
      QueueFrame(s, c);
      EditKeepsInv(s, c, s.campaigns[c].(status := Killed), s.jobs - Removable(s.jobs, Unsent(s, c)));
    }
  }

  lemma RetryKeepsInv(s: State, c: CampaignId)
    requires Inv(s)
    ensures Inv(RetryUnsent(s, c).0)
  {
    if HasStatus(s, c, Active) {
      QueueFrame(s, c);
      ServiceOnlyKeepsInv(s, RetryUnsent(s, c).0);
    }
  }

  /** The rows createMany adds are new ids, so nothing was ever mailed or lost for them. */
  lemma NewRowsKeepInv(s: State, c: CampaignId, pairs: seq<(EmployeeId, ScenarioId)>)
    requires Inv(s) && c in s.campaigns
    ensures
      var (sends, next) := CreateMany(s.sends, s.nextSend, c, pairs);
      Inv(s.(sends := sends, nextSend := next))
  {
    var (sends, next) := CreateMany(s.sends, s.nextSend, c, pairs);
    CreateManyExact(s.sends, s.nextSend, c, pairs);
    var s1 := s.(sends := sends, nextSend := next);
    forall id | id in sends ensures RowOk(s1, id) {
      assert id in s.sends ==> RowOk(s, id);
    }
  }

  lemma ActivateKeepsInv(s: State, c: CampaignId, env: Env)
    requires Inv(s) && c in s.campaigns
    ensures Inv(Activate(s, c, env))
  {
    var campaign := s.campaigns[c];
    var pairs := Pairs(Recipients(campaign, env), campaign.scenarios);
    var (sends, next) := CreateMany(s.sends, s.nextSend, c, pairs);
    var s1 := s.(sends := sends, nextSend := next);
    NewRowsKeepInv(s, c, pairs);
    var s2 := s1.(campaigns := s.campaigns[c := campaign.(status := Active)]);
    assert Unsent(s2, c) == Unsent(s1, c);
    QueueFrame(s1, c);
    EditKeepsInv(s1, c, campaign.(status := Active), AddJobs(s1.jobs, Unsent(s1, c), c));
  }

  lemma LaunchKeepsInv(s: State, c: CampaignId, env: Env)
    requires Inv(s)
    ensures Inv(Launch(s, c, env).0)
  {
    if LaunchRefusal(s, c, env).None? {
      ActivateKeepsInv(s, c, env);
      ScheduleNextKeepsInv(Activate(s, c, env), c, s.campaigns[c], env.now);
    }
  }

  // ---------- Worker steps keep the invariant ----------

  /** Two states that differ, outside the campaigns, only in what they hold for one id. */
  ghost predicate OnlyAt(s: State, s': State, id: SendId) {
    && s'.campaigns == s.campaigns && s'.nextCampaign == s.nextCampaign && s'.nextSend == s.nextSend
    && s'.sends.Keys == s.sends.Keys
    && (forall k :: k in s.sends ==> SamePair(s'.sends[k], s.sends[k]) && (k != id ==> s'.sends[k] == s.sends[k]))
    && (forall k :: k != id ==> (k in s'.jobs <==> k in s.jobs) && (k in s.jobs ==> s'.jobs[k] == s.jobs[k]))
    && (forall k :: k != id ==> (k in s'.workers <==> k in s.workers))
    && (forall k :: k != id && k in s.workers ==> s'.workers[k] == s.workers[k])
    && (forall k :: k in s'.jobs ==> k in s.jobs && s'.jobs[k].campaign == s.jobs[k].campaign)
    && (forall m: Mail :: m in s'.log ==> m in s.log || (id in s.jobs && m == Mail(id, s.jobs[id].campaign)))
    && (forall m: Mail :: m.send != id ==> s'.log[m] == s.log[m])
    && (forall k: SendId :: k != id ==> s'.lost[k] == s.lost[k])
  }

  /** What the step must then respect at that id. */
  ghost predicate OwnOk(s: State, s': State, id: SendId) {
    && id < s.nextSend
    && (id in s.sends ==> id in s'.sends && RowOk(s', id))
    && (id in s'.workers <==> id in s'.jobs && s'.jobs[id].state == Running)
  }

  lemma OnlyAtKeepsInv(s: State, s': State, id: SendId)
    requires Inv(s) && OnlyAt(s, s', id) && OwnOk(s, s', id)
    ensures Inv(s')
  {
    OnlyAtKeepsQueue(s, s', id);
    forall k | k in s'.sends ensures RowOk(s', k) && SamePair(s'.sends[k], s.sends[k]) {
      assert RowOk(s, k);
    }
    assert FreshInv(s');
    assert RowsInv(s');
  }

  lemma OnlyAtKeepsQueue(s: State, s': State, id: SendId)
    requires IdsInv(s) && QueueInv(s) && OnlyAt(s, s', id)
    requires id in s'.workers <==> id in s'.jobs && s'.jobs[id].state == Running
    ensures IdsInv(s') && QueueInv(s')
  {
  }

  lemma ClaimKeepsInv(s: State, id: SendId)
    requires Inv(s)
    ensures Inv(Claim(s, id)) && OnlyAt(s, Claim(s, id), id)
  {
    if Claim(s, id) != s {
      assert id in s.sends ==> RowOk(s, id);
      OnlyAtKeepsInv(s, Claim(s, id), id);
    }
  }

  lemma ReadKeepsInv(s: State, id: SendId)
    requires Inv(s)
    ensures Inv(Read(s, id)) && OnlyAt(s, Read(s, id), id)
  {
    if Read(s, id) != s {
      assert id in s.sends ==> RowOk(s, id);
      OnlyAtKeepsInv(s, Read(s, id), id);
    }
  }

  lemma RenderKeepsInv(s: State, id: SendId, found: bool)
    requires Inv(s)
    ensures Inv(Render(s, id, found)) && OnlyAt(s, Render(s, id, found), id)
  {
    if Render(s, id, found) != s {
      assert id in s.sends ==> RowOk(s, id);
      OnlyAtKeepsInv(s, Render(s, id, found), id);
    }
  }

  lemma MailKeepsInv(s: State, id: SendId)
    requires Inv(s)
    ensures Inv(SendMail(s, id)) && OnlyAt(s, SendMail(s, id), id)
  {
    if SendMail(s, id) != s {
      assert id in s.sends ==> RowOk(s, id);
      OnlyAtKeepsInv(s, SendMail(s, id), id);
    }
  }

  lemma ThrowKeepsInv(s: State, id: SendId)
    requires Inv(s)
    ensures Inv(Throw(s, id)) && OnlyAt(s, Throw(s, id), id)
  {
    if Throw(s, id) != s {
      assert id in s.sends ==> RowOk(s, id);
      OnlyAtKeepsInv(s, Throw(s, id), id);
    }
  }

  lemma StampKeepsInv(s: State, id: SendId)
    requires Inv(s)
    ensures Inv(Stamp(s, id)) && OnlyAt(s, Stamp(s, id), id)
  {
    if InPhase(s, id, Mailed) && id in s.sends {
      StampRow(s, id);
    } else {
      ThrowKeepsInv(s, id);
    }
  }

  lemma StampRow(s: State, id: SendId)
    requires Inv(s) && InPhase(s, id, Mailed) && id in s.sends
    ensures Inv(Stamp(s, id)) && OnlyAt(s, Stamp(s, id), id)
  {
    assert RowOk(s, id);
    OnlyAtKeepsInv(s, Stamp(s, id), id);
  }

  lemma ReturnKeepsInv(s: State, id: SendId)
    requires Inv(s)
    ensures Inv(Return(s, id)) && OnlyAt(s, Return(s, id), id)
  {
    if Return(s, id) != s {
      assert id in s.sends ==> RowOk(s, id);
      OnlyAtKeepsInv(s, Return(s, id), id);
    }
  }

  lemma EvictKeepsInv(s: State, id: SendId)
    requires Inv(s) && id in s.jobs && s.jobs[id].state != Running
    ensures Inv(s.(jobs := s.jobs - {id}))
  {
    assert id in s.sends ==> RowOk(s, id);
    OnlyAtKeepsInv(s, s.(jobs := s.jobs - {id}), id);
  }

  lemma RemovalKeepsInv(s: State, e: EmployeeId)
    requires Inv(s)
    ensures Inv(Apply(s, RemoveEmployee(e)))
  {
    var s' := Apply(s, RemoveEmployee(e));
    assert forall id :: id in s.sends ==> RowOk(s, id) ==> id in s'.sends ==> RowOk(s', id);
  }

  // ---------- Every run ----------

  predicate WorkerStep(a: Action) {
    a.DoClaim? || a.DoRead? || a.DoRender? || a.DoMail? || a.DoStamp? || a.DoThrow? || a.DoReturn?
  }

  lemma BeforeMailKeepsInv(s: State, a: Action)
    requires Inv(s) && (a.DoClaim? || a.DoRead? || a.DoRender?)
    ensures Inv(Apply(s, a)) && OnlyAt(s, Apply(s, a), a.id)
  {
    var s' := Apply(s, a);
    if a.DoClaim? {
      assert s' == Claim(s, a.id);
      ClaimKeepsInv(s, a.id);
    } else if a.DoRead? {
      assert s' == Read(s, a.id);
      ReadKeepsInv(s, a.id);
    } else {
      assert s' == Render(s, a.id, a.scenarioFound);
      RenderKeepsInv(s, a.id, a.scenarioFound);
    }
  }

  lemma FromMailKeepsInv(s: State, a: Action)
    requires Inv(s) && (a.DoMail? || a.DoStamp? || a.DoThrow? || a.DoReturn?)
    ensures Inv(Apply(s, a)) && OnlyAt(s, Apply(s, a), a.id)
  {
    var s' := Apply(s, a);
    if a.DoMail? {
      assert s' == SendMail(s, a.id);
      MailKeepsInv(s, a.id);
    } else if a.DoStamp? {
      assert s' == Stamp(s, a.id);
      StampKeepsInv(s, a.id);
    } else if a.DoThrow? {
      assert s' == Throw(s, a.id);
      ThrowKeepsInv(s, a.id);
    } else {
      assert s' == Return(s, a.id);
      ReturnKeepsInv(s, a.id);
    }
  }

  lemma WorkerStepKeepsInv(s: State, a: Action)
    requires Inv(s) && WorkerStep(a)
    ensures Inv(Apply(s, a)) && OnlyAt(s, Apply(s, a), a.id)
  {
    if a.DoClaim? || a.DoRead? || a.DoRender? {
      BeforeMailKeepsInv(s, a);
    } else {
      FromMailKeepsInv(s, a);
    }
  }

  lemma ServiceStepKeepsInv(s: State, a: Action)
    requires Inv(s) && (a.DoLaunch? || a.DoResume? || a.DoKill? || a.DoRetry?)
    ensures Inv(Apply(s, a))
  {
    match a
    case DoLaunch(c, env) => LaunchKeepsInv(s, c, env);
    case DoResume(c) => ResumeKeepsInv(s, c);
    case DoKill(c) => KillKeepsInv(s, c);
    case DoRetry(c) => RetryKeepsInv(s, c);
  }

  lemma RecordStepKeepsInv(s: State, a: Action)
    requires Inv(s) && (a.DoSchedule? || a.DoPause? || a.SetDomain?)
    ensures Inv(Apply(s, a))
  {
    if a.c in s.campaigns {
      match a
      case DoSchedule(c, at) => EditKeepsInv(s, c, s.campaigns[c].(scheduledSendAt := at), s.jobs);
      case DoPause(c) => EditKeepsInv(s, c, s.campaigns[c].(status := Paused), s.jobs);
      case SetDomain(c, domain) => EditKeepsInv(s, c, s.campaigns[c].(sendingDomain := domain), s.jobs);
    }
  }

  lemma StepKeepsInv(s: State, a: Action)
    requires Inv(s)
    ensures Inv(Apply(s, a))
  {
    if WorkerStep(a) {
      WorkerStepKeepsInv(s, a);
    } else if a.DoLaunch? || a.DoResume? || a.DoKill? || a.DoRetry? {
      ServiceStepKeepsInv(s, a);
    } else if a.DoSchedule? || a.DoPause? || a.SetDomain? {
      RecordStepKeepsInv(s, a);
    } else if a.DoCreate? {
      CreateKeepsInv(s, a.campaign);
    } else if a.Evict? {
      if a.id in s.jobs && s.jobs[a.id].state != Running { EvictKeepsInv(s, a.id); }
    } else {
      RemovalKeepsInv(s, a.e);
    }
  }

  /** Every state of every run from the empty state satisfies the invariant. */
  lemma {:induction false} RunKeepsInv(s: State, actions: seq<Action>)
    requires Inv(s)
    ensures Inv(Run(s, actions))
    decreases |actions|
  {
    if actions != [] {
      StepKeepsInv(s, actions[0]);
      RunKeepsInv(Apply(s, actions[0]), actions[1..]);
    }
  }

  // ---------- What it gives ----------

  /** In any run from the empty state, a row is mailed once for every lost stamp, and once more
      if it is stamped or its worker is between mail and stamp: with no lost stamp, never twice. */
  lemma MailsConserved(actions: seq<Action>, id: SendId)
    requires id in Run(EMPTY, actions).sends
    ensures
      var s := Run(EMPTY, actions);
      var mails := s.log[Mail(id, s.sends[id].campaign)];
      && mails == s.lost[id] + (if s.sends[id].sent || InPhase(s, id, Mailed) then 1 else 0)
      && (s.lost[id] == 0 ==> mails <= 1)
      && (s.sends[id].sent ==> mails >= 1)
  {
    RunKeepsInv(EMPTY, actions);
    assert RowOk(Run(EMPTY, actions), id);
  }

  /** In every reachable state a pair of recipient and scenario has at most one row in a campaign,
      and a row at most one worker: the one holding its running job. */
  lemma OneRowOneWorker(actions: seq<Action>)
    ensures RowsInv(Run(EMPTY, actions)) && QueueInv(Run(EMPTY, actions))
  {
    RunKeepsInv(EMPTY, actions);
  }
}
