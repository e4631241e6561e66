/** What a launch creates, when it is refused, how occurrences chain, and what a scheduler tick launches. */
module CampaignLaunch {
  import opened Wrappers
  import opened CampaignProtocol
  import opened CampaignInvariants

  // ---------- Recipients ----------

  /** An employee on the roster, chosen by the campaign (or nobody was), whose address is on a verified domain. */
  predicate IsRecipient(e: Employee, c: Campaign, env: Env) {
    e in env.roster && (c.targets == {} || e.id in c.targets) && e.domain in env.verifiedDomains
  }

  /** The pair of recipient and scenario belongs to the campaign's product. */
  predicate Wanted(e: EmployeeId, sc: ScenarioId, c: Campaign, env: Env) {
    sc in c.scenarios && exists x :: x in env.roster && x.id == e && IsRecipient(x, c, env)
  }

  lemma {:induction false} SelectedExact(roster: seq<Employee>, targets: set<EmployeeId>, e: Employee)
    ensures e in Selected(roster, targets) <==> e in roster && (targets == {} || e.id in targets)
    decreases |roster|
  {
    if roster != [] {
      SelectedExact(roster[1..], targets, e);
      assert e in roster <==> e == roster[0] || e in roster[1..];
    }
  }

  lemma {:induction false} OnVerifiedExact(employees: seq<Employee>, domains: set<string>, e: Employee)
    ensures e in OnVerifiedDomain(employees, domains) <==> e in employees && e.domain in domains
    decreases |employees|
  {
    if employees != [] {
      OnVerifiedExact(employees[1..], domains, e);
      assert e in employees <==> e == employees[0] || e in employees[1..];
    }
  }

  lemma RecipientsExact(c: Campaign, env: Env, e: Employee)
    ensures e in Recipients(c, env) <==> IsRecipient(e, c, env)
  {
    SelectedExact(env.roster, c.targets, e);
    OnVerifiedExact(Selected(env.roster, c.targets), env.verifiedDomains, e);
  }

  lemma {:induction false} PairsExact(employees: seq<Employee>, scenarios: seq<ScenarioId>, p: (EmployeeId, ScenarioId))
    ensures p in Pairs(employees, scenarios) <==> p.1 in scenarios && exists x :: x in employees && x.id == p.0
    decreases |employees|
  {
    if employees != [] {
      var first := seq(|scenarios|, i requires 0 <= i < |scenarios| => (employees[0].id, scenarios[i]));
      PairsExact(employees[1..], scenarios, p);
      assert p in first <==> p.0 == employees[0].id && p.1 in scenarios by {
        if p.0 == employees[0].id && p.1 in scenarios {
          var i :| 0 <= i < |scenarios| && scenarios[i] == p.1;
          assert first[i] == p;
        }
      }
      assert forall x :: x in employees <==> x == employees[0] || x in employees[1..];
    }
  }

  lemma PairsWanted(c: Campaign, env: Env, p: (EmployeeId, ScenarioId))
    ensures p in Pairs(Recipients(c, env), c.scenarios) <==> Wanted(p.0, p.1, c, env)
  {
    PairsExact(Recipients(c, env), c.scenarios, p);
    forall x { RecipientsExact(c, env, x); }
    if p in Pairs(Recipients(c, env), c.scenarios) {
      var x :| x in Recipients(c, env) && x.id == p.0;
      assert IsRecipient(x, c, env);
    }
  }

  // ---------- Launch ----------

  /** A sending domain is chosen and verified, there are scenarios, the three confirmations are given, and somebody
      on the roster whom the campaign chose, if it chose anybody, has an address on a verified domain. */
  predicate Launchable(c: Campaign, env: Env) {
    && env.agreementSigned && env.trackingConfigured && env.allowlistConfirmed
    && c.scenarios != []
    && c.sendingDomain.Some? && c.sendingDomain.value in env.verifiedSenders
    && exists e :: e in env.roster && (c.targets == {} || e.id in c.targets) && e.domain in env.verifiedDomains
  }

  /** A launch goes ahead exactly for a draft or paused campaign that is launchable. */
  lemma LaunchAllowedIff(s: State, c: CampaignId, env: Env)
    ensures Launch(s, c, env).1.Ok? <==>
            (HasStatus(s, c, Draft) || HasStatus(s, c, Paused)) && Launchable(s.campaigns[c], env)
    ensures Launch(s, c, env).1.Err? ==> Launch(s, c, env).0 == s
  {
    if c in s.campaigns {
      LaunchableIs(s.campaigns[c], env);
    }
  }

  lemma LaunchableIs(c: Campaign, env: Env)
    ensures Launchable(c, env) <==> Preflight(c, env) && Recipients(c, env) != []
    ensures Recipients(c, env) != [] ==> Selected(env.roster, c.targets) != []
  {
    SomeRecipient(c, env);
    if Recipients(c, env) != [] {
      var e :| IsRecipient(e, c, env);
      assert e in env.roster;
    }
    if Launchable(c, env) {
      var e :| e in env.roster && (c.targets == {} || e.id in c.targets) && e.domain in env.verifiedDomains;
      assert IsRecipient(e, c, env);
    }
  }

  lemma SomeRecipient(c: Campaign, env: Env)
    ensures Recipients(c, env) != [] <==> exists e :: IsRecipient(e, c, env)
    ensures Recipients(c, env) != [] ==> Selected(env.roster, c.targets) != []
  {
    if Recipients(c, env) != [] {
      RecipientsExact(c, env, Recipients(c, env)[0]);
      OnVerifiedExact(Selected(env.roster, c.targets), env.verifiedDomains, Recipients(c, env)[0]);
    }
    if e :| IsRecipient(e, c, env) {
      RecipientsExact(c, env, e);
    }
  }

  /** The rows before and after: old rows stand, and the new ones are unsent, under new ids, and belong to the
      campaign. */
  ghost predicate OnlyNewRows(s: State, s': State, c: CampaignId) {
    && (forall id :: id in s.sends ==> id in s'.sends && s'.sends[id] == s.sends[id])
    && (forall id :: id in s'.sends && id !in s.sends ==>
        s.nextSend <= id && s'.sends[id].campaign == c && !s'.sends[id].sent)
  }

  lemma ActivateRows(s: State, c: CampaignId, env: Env)
    requires Inv(s) && c in s.campaigns
    ensures
      var s' := Activate(s, c, env);
      && OnlyNewRows(s, s', c)
      && (forall id :: id in s'.sends && id !in s.sends ==>
          !HasRow(s.sends, c, s'.sends[id].employee, s'.sends[id].scenario))
      && (forall e, sc :: HasRow(s'.sends, c, e, sc) <==>
          HasRow(s.sends, c, e, sc) || Wanted(e, sc, s.campaigns[c], env))
  {
    var campaign := s.campaigns[c];
    var pairs := Pairs(Recipients(campaign, env), campaign.scenarios);
    var s' := Activate(s, c, env);
    CreateManyExact(s.sends, s.nextSend, c, pairs);
    forall e, sc ensures HasRow(s'.sends, c, e, sc) <==> HasRow(s.sends, c, e, sc) || Wanted(e, sc, campaign, env) {
      PairsWanted(campaign, env, (e, sc));
      HasRowKept(s.sends, s'.sends, c, e, sc);
      if HasRow(s'.sends, c, e, sc) && !HasRow(s.sends, c, e, sc) {
        var id :| id in s'.sends && s'.sends[id].campaign == c && s'.sends[id].employee == e
            && s'.sends[id].scenario == sc;
        assert id !in s.sends;
        assert FreshRow(s'.sends[id], c, pairs);
      }
    }
  }

  lemma ActivatedJobs(s: State, c: CampaignId, env: Env)
    requires c in s.campaigns
    ensures
      var s1 := Activate(s, c, env);
      && s1.jobs == AddJobs(s.jobs, Unsent(s1, c), c) && HasStatus(s1, c, Active)
      && s1.workers == s.workers && s1.log == s.log && s1.lost == s.lost && s1.nextCampaign == s.nextCampaign
  {
    var campaign := s.campaigns[c];
    var (sends, next) := CreateMany(s.sends, s.nextSend, c, Pairs(Recipients(campaign, env), campaign.scenarios));
    var s0 := s.(sends := sends, nextSend := next, campaigns := s.campaigns[c := campaign.(status := Active)]);
    assert Activate(s, c, env) == s0.(jobs := AddJobs(s.jobs, Unsent(s0, c), c));
    assert Unsent(Activate(s, c, env), c) == Unsent(s0, c);
  }

  /** Rows and jobs after a launch are those of the activation: the next occurrence touches neither. */
  lemma LaunchActivates(s: State, c: CampaignId, env: Env)
    requires Launch(s, c, env).1.Ok?
    ensures
      var ((s', r), s1) := (Launch(s, c, env), Activate(s, c, env));
      && s'.sends == s1.sends && Unsent(s', c) == Unsent(s1, c) && r == Ok(|Unsent(s1, c)|)
      && s'.jobs == AddJobs(s.jobs, Unsent(s1, c), c)
      && s'.workers == s.workers && s'.log == s.log && s'.lost == s.lost
  {
    ActivatedJobs(s, c, env);
  }

  lemma LaunchedActive(s: State, c: CampaignId, env: Env)
    requires Inv(s) && Launch(s, c, env).1.Ok?
    ensures HasStatus(Launch(s, c, env).0, c, Active)
  {
    assert c < s.nextCampaign;
  }

  /**
   A successful launch adds rows for exactly the product of recipients and scenarios that had none, one
   row a pair, and touches no other row; it reports the number of unsent rows, each of which now has a job.
   */
  lemma LaunchCreatesProduct(s: State, c: CampaignId, env: Env)
    requires Inv(s) && Launch(s, c, env).1.Ok?
    ensures
      var (s', r) := Launch(s, c, env);
      && OnlyNewRows(s, s', c) && RowsInv(s')
      && (forall id :: id in s'.sends && id !in s.sends ==>
          !HasRow(s.sends, c, s'.sends[id].employee, s'.sends[id].scenario))
      && (forall e, sc :: HasRow(s'.sends, c, e, sc) <==>
          HasRow(s.sends, c, e, sc) || Wanted(e, sc, s.campaigns[c], env))
      && HasStatus(s', c, Active)
      && r.value == |Unsent(s', c)|
      && (forall id :: id in Unsent(s', c) ==> id in s'.jobs)
  {
    ActivateRows(s, c, env);
    LaunchKeepsInv(s, c, env);
    LaunchActivates(s, c, env);
    LaunchedActive(s, c, env);
  }

  // ---------- Recurrence ----------

  function Clones(s: State, r: CampaignId): set<CampaignId> {
    set c | c in s.campaigns && s.campaigns[c].parent == Some(r)
  }

  /** The step is a successful launch of a recurring campaign whose lineage starts at r. */
  predicate Recurring(s: State, a: Action, r: CampaignId) {
    a.DoLaunch? && Launch(s, a.c, a.env).1.Ok? && a.c in s.campaigns
    && Recurs(s.campaigns[a.c]) && Root(a.c, s.campaigns[a.c]) == r
  }

  /** The number of such steps in a run. */
  function RecurringLaunches(s: State, actions: seq<Action>, r: CampaignId): nat
    decreases |actions|
  {
    if actions == [] then 0
    else (if Recurring(s, actions[0], r) then 1 else 0) + RecurringLaunches(Apply(s, actions[0]), actions[1..], r)
  }

  /** A successful launch of a recurring campaign adds one campaign, the next occurrence: a draft that points at
      the root, keeps the root's scenarios, window and recurrence, and is due recurrenceDays days after the launch. */
  lemma LaunchClones(s: State, c: CampaignId, env: Env)
    requires Inv(s) && Launch(s, c, env).1.Ok?
    ensures
      var (s', days) := (Launch(s, c, env).0, s.campaigns[c].recurrenceDays);
      if days.None? || days.value <= 0 then s'.campaigns == s.campaigns[c := s.campaigns[c].(status := Active)]
      else
        var n, root := s.nextCampaign, Root(c, s.campaigns[c]);
        && n !in s.campaigns && n in s'.campaigns && root in s.campaigns && s.campaigns[root].parent == None
        && s'.campaigns == s.campaigns[c := s.campaigns[c].(status := Active)][n := s'.campaigns[n]]
        && SameSchedule(s'.campaigns[n], s.campaigns[root])
        && s'.campaigns[n].status == Draft && s'.campaigns[n].parent == Some(root)
        && s'.campaigns[n].scheduledSendAt == Some(env.now + s.campaigns[root].recurrenceDays.value * 86_400_000)
  {
  }

  lemma CloneStep(s: State, a: Action, r: CampaignId)
    requires Inv(s)
    ensures |Clones(Apply(s, a), r)| == |Clones(s, r)| + if Recurring(s, a, r) then 1 else 0
  {
    if a.DoLaunch? && Launch(s, a.c, a.env).1.Ok? {
      CloneLaunch(s, a.c, a.env, r);
    } else {
      SameParents(s, a);
      SameClones(s, Apply(s, a), r);
    }
  }

  lemma CloneLaunch(s: State, c: CampaignId, env: Env, r: CampaignId)
    requires Inv(s) && Launch(s, c, env).1.Ok?
    ensures |Clones(Launch(s, c, env).0, r)| == |Clones(s, r)| + if Recurring(s, DoLaunch(c, env), r) then 1 else 0
  {
    LaunchClones(s, c, env);
    var s' := Launch(s, c, env).0;
    if Recurs(s.campaigns[c]) {
      AddClone(s.campaigns, s'.campaigns, s.nextCampaign, c, s.campaigns[c].(status := Active));
      CountClone(s, s', s.nextCampaign, r);
    } else {
      SameClones(s, s', r);
    }
  }

  /** The campaigns gain one entry, and the others keep their parents. */
  ghost predicate AddsOne(before: map<CampaignId, Campaign>, after: map<CampaignId, Campaign>, n: CampaignId) {
    && n !in before && after.Keys == before.Keys + {n}
    && forall c :: c in before ==> after[c].parent == before[c].parent
  }

  lemma AddClone(before: map<CampaignId, Campaign>, after: map<CampaignId, Campaign>, n: CampaignId, c: CampaignId,
      edited: Campaign)
    requires n !in before && n in after
    requires c in before && edited.parent == before[c].parent && after == before[c := edited][n := after[n]]
    ensures AddsOne(before, after, n)
  {
  }

  lemma AddedClones(s: State, s': State, n: CampaignId, r: CampaignId)
    requires AddsOne(s.campaigns, s'.campaigns, n)
    ensures n !in Clones(s, r)
    ensures Clones(s', r) == Clones(s, r) + if s'.campaigns[n].parent == Some(r) then {n} else {}
  {
    forall c ensures c in s'.campaigns <==> c in s.campaigns || c == n {
      assert c in s'.campaigns.Keys <==> c in s.campaigns.Keys + {n};
    }
  }

  lemma CountClone(s: State, s': State, n: CampaignId, r: CampaignId)
    requires AddsOne(s.campaigns, s'.campaigns, n)
    ensures |Clones(s', r)| == |Clones(s, r)| + if s'.campaigns[n].parent == Some(r) then 1 else 0
  {
    AddedClones(s, s', n, r);
  }

  lemma SameClones(s: State, s': State, r: CampaignId)
    requires ParentsKept(s, s')
    ensures Clones(s', r) == Clones(s, r)
  {
  }

  /** Campaigns keep their parents, and a campaign that appears has none. */
  ghost predicate ParentsKept(s: State, s': State) {
    && (forall c :: c in s.campaigns ==> c in s'.campaigns && s'.campaigns[c].parent == s.campaigns[c].parent)
    && (forall c :: c in s'.campaigns && c !in s.campaigns ==> s'.campaigns[c].parent == None)
  }

  lemma SameParents(s: State, a: Action)
    requires Inv(s) && !(a.DoLaunch? && Launch(s, a.c, a.env).1.Ok?)
    ensures ParentsKept(s, Apply(s, a))
  {
    if WorkerStep(a) {
      WorkerStepKeepsInv(s, a);
      SameCampaigns(s, Apply(s, a));
    } else if a.DoLaunch? || a.Evict? || a.RemoveEmployee? {
      SameCampaigns(s, Apply(s, a));
    } else if a.DoCreate? {
      CreateParents(s, a.campaign);
    } else {
      EditParents(s, a);
    }
  }

  lemma SameCampaigns(s: State, s': State)
    requires s'.campaigns == s.campaigns
    ensures ParentsKept(s, s')
  {
  }

  lemma EditedParents(s: State, s': State, c: CampaignId)
    requires c in s.campaigns && c in s'.campaigns && s'.campaigns == s.campaigns[c := s'.campaigns[c]]
    requires s'.campaigns[c].parent == s.campaigns[c].parent
    ensures ParentsKept(s, s')
  {
  }

  lemma EditParents(s: State, a: Action)
    requires a.DoSchedule? || a.DoPause? || a.SetDomain? || a.DoResume? || a.DoKill? || a.DoRetry?
    ensures ParentsKept(s, Apply(s, a))
  {
    if a.DoRetry? || a.c !in s.campaigns {
      SameCampaigns(s, Apply(s, a));
    } else {
      EditedParents(s, Apply(s, a), a.c);
    }
  }

  lemma CreateParents(s: State, campaign: Campaign)
    requires IdsInv(s)
    ensures ParentsKept(s, Create(s, campaign))
  {
    assert s.nextCampaign !in s.campaigns;
  }

  /** Over any run from the empty state, a root has exactly as many clones as its lineage had successful launches. */
  lemma ClonesCountLaunches(actions: seq<Action>, r: CampaignId)
    ensures |Clones(Run(EMPTY, actions), r)| == RecurringLaunches(EMPTY, actions, r)
  {
    assert Clones(EMPTY, r) == {};
    ClonesOverRun(EMPTY, actions, r);
  }

  lemma {:induction false} ClonesOverRun(s: State, actions: seq<Action>, r: CampaignId)
    requires Inv(s)
    ensures |Clones(Run(s, actions), r)| == |Clones(s, r)| + RecurringLaunches(s, actions, r)
    decreases |actions|
  {
    if actions != [] {
      CloneStep(s, actions[0], r);
      StepKeepsInv(s, actions[0]);
      ClonesOverRun(Apply(s, actions[0]), actions[1..], r);
    }
  }

  // ---------- A campaign without a sending domain ----------

  /** No sending domain, never launched, and nothing queued or mailed for it. */
  ghost predicate Dormant(s: State, c: CampaignId) {
    && c in s.campaigns && s.campaigns[c].sendingDomain == None
    && (s.campaigns[c].status == Draft || s.campaigns[c].status == Killed)
    && (forall id :: id in s.sends ==> s.sends[id].campaign != c)
    && (forall id :: id in s.jobs ==> s.jobs[id].campaign != c)
    && (forall m :: m in s.log ==> m.campaign != c)
  }

  lemma CloneIsDormant(s: State, c: CampaignId, env: Env)
    requires Inv(s) && Launch(s, c, env).1.Ok? && Recurs(s.campaigns[c])
    ensures Dormant(Launch(s, c, env).0, s.nextCampaign)
  {
    LaunchClones(s, c, env);
    LaunchKeepsInv(s, c, env);
    ActivateRows(s, c, env);
    assert s.nextCampaign !in s.campaigns;
  }

  lemma DormantStep(s: State, a: Action, c: CampaignId)
    requires Inv(s) && Dormant(s, c) && !(a.SetDomain? && a.c == c)
    ensures Dormant(Apply(s, a), c)
  {
    assert c < s.nextCampaign;
    if WorkerStep(a) {
      WorkerStepKeepsInv(s, a);
      DormantWorker(s, Apply(s, a), a.id, c);
    } else if a.DoLaunch? {
      DormantLaunch(s, a.c, a.env, c);
    } else if a.DoKill? {
      DormantKill(s, a.c, c);
    } else if a.DoResume? || a.DoRetry? {
      DormantQueue(s, a, c);
    }
  }

  lemma DormantWorker(s: State, s': State, id: SendId, c: CampaignId)
    requires Dormant(s, c) && OnlyAt(s, s', id)
    ensures Dormant(s', c)
  {
  }

  lemma DormantQueue(s: State, a: Action, c: CampaignId)
    requires Inv(s) && Dormant(s, c) && (a.DoResume? || a.DoRetry?)
    ensures Dormant(Apply(s, a), c)
  {
    assert !HasStatus(s, c, Paused) && !HasStatus(s, c, Active);
    match a
    case DoResume(d) => if HasStatus(s, d, Paused) { assert d != c; }
    case DoRetry(d) => if HasStatus(s, d, Active) { assert d != c; }
  }

  lemma DormantKill(s: State, d: CampaignId, c: CampaignId)
    requires Inv(s) && Dormant(s, c)
    ensures Dormant(Kill(s, d).0, c)
  {
  }

  lemma DormantRows(s: State, d: CampaignId, env: Env, c: CampaignId)
    requires Inv(s) && Dormant(s, c) && d != c && d in s.campaigns
    ensures
      var s' := Activate(s, d, env);
      && (forall id :: id in s'.sends ==> s'.sends[id].campaign != c)
      && (forall id :: id in s'.jobs ==> s'.jobs[id].campaign != c)
  {
    ActivateRows(s, d, env);
    ActivatedJobs(s, d, env);
  }

  lemma DormantLaunch(s: State, d: CampaignId, env: Env, c: CampaignId)
    requires Inv(s) && Dormant(s, c)
    ensures Dormant(Launch(s, d, env).0, c)
  {
    if Launch(s, d, env).1.Ok? {
      DormantRows(s, d, env, c);
      LaunchActivates(s, d, env);
      LaunchClones(s, d, env);
    }
  }

  /** Preflight refuses a campaign without a sending domain, and nothing but an outside edit chooses one:
      so an occurrence cloned by recurrence stays a draft (or is killed) and never mails anybody. */
  lemma {:induction false} DormantForever(s: State, actions: seq<Action>, c: CampaignId)
    requires Inv(s) && Dormant(s, c)
    requires forall a :: a in actions ==> !(a.SetDomain? && a.c == c)
    ensures Dormant(Run(s, actions), c)
    decreases |actions|
  {
    if actions != [] {
      DormantStep(s, actions[0], c);
      StepKeepsInv(s, actions[0]);
      DormantForever(Apply(s, actions[0]), actions[1..], c);
    }
  }

  /** The next occurrence that a launch schedules never mails anybody, over any run in which nobody
      chooses a sending domain for it: recurrence on its own never sends a second round. */
  lemma OccurrenceNeverMails(before: seq<Action>, c: CampaignId, env: Env, after: seq<Action>)
    requires Launch(Run(EMPTY, before), c, env).1.Ok? && Recurs(Run(EMPTY, before).campaigns[c])
    requires forall a :: a in after ==> !(a.SetDomain? && a.c == Run(EMPTY, before).nextCampaign)
    ensures Dormant(Run(Launch(Run(EMPTY, before), c, env).0, after), Run(EMPTY, before).nextCampaign)
  {
    var s := Run(EMPTY, before);
    RunKeepsInv(EMPTY, before);
    CloneIsDormant(s, c, env);
    LaunchKeepsInv(s, c, env);
    DormantForever(Launch(s, c, env).0, after, s.nextCampaign);
  }

  /** The occurrence as it was cloned, whatever domain and time have been set since. */
  predicate IsOccurrence(t: State, n: CampaignId, clone: Campaign, domain: Option<DomainId>, at: Option<int>) {
    n in t.campaigns && t.campaigns[n] == clone.(sendingDomain := domain, scheduledSendAt := at)
  }

  /** It launches exactly when a verified sending domain has been chosen for it and, for the rest, the gates are
      met and anybody on the roster is on a verified domain: the launched campaign's own choice of people is gone. */
  lemma OccurrenceLaunchIff(s: State, c: CampaignId, env: Env, t: State, domain: Option<DomainId>, at: Option<int>,
                            later: Env)
    requires Inv(s) && Launch(s, c, env).1.Ok? && Recurs(s.campaigns[c])
    requires var n := s.nextCampaign;
             n in Launch(s, c, env).0.campaigns && IsOccurrence(t, n, Launch(s, c, env).0.campaigns[n], domain, at)
    ensures Launch(t, s.nextCampaign, later).1.Ok? <==>
            && domain.Some? && domain.value in later.verifiedSenders
            && later.agreementSigned && later.trackingConfigured && later.allowlistConfirmed
            && exists e :: e in later.roster && e.domain in later.verifiedDomains
    ensures domain == None ==> Launch(t, s.nextCampaign, later) == (t, Err(NotReady))
  {
    var n := s.nextCampaign;
    LaunchClones(s, c, env);
    LaunchAllowedIff(s, c, env);
    LaunchAllowedIff(t, n, later);
    assert SameSchedule(t.campaigns[n], s.campaigns[c]);
    if e :| e in later.roster && e.domain in later.verifiedDomains {
      assert IsRecipient(e, t.campaigns[n], later);
    }
    if e :| IsRecipient(e, t.campaigns[n], later) {
      assert e in later.roster && e.domain in later.verifiedDomains;
    }
  }

  // ---------- The scheduler tick ----------

  /** The drafts whose time has come. */
  function Due(s: State, now: int): set<CampaignId> {
    set c | c in s.campaigns && s.campaigns[c].status == Draft
            && s.campaigns[c].scheduledSendAt.Some? && s.campaigns[c].scheduledSendAt.value <= now
  }

  /** Launches each campaign of the list in turn, going on after a refusal, and counts the successes. */
  function LaunchAll(s: State, due: seq<(CampaignId, Env)>): (State, nat)
    decreases |due|
  {
    if due == [] then (s, 0)
    else
      var (s1, r) := Launch(s, due[0].0, due[0].1);
      var (s2, n) := LaunchAll(s1, due[1..]);
      (s2, n + if r.Ok? then 1 else 0)
  }

  function Accepted(s: State, due: seq<(CampaignId, Env)>): nat
    decreases |due|
  {
    if due == [] then 0
    else Accepted(s, due[1..]) + if LaunchRefusal(s, due[0].0, due[0].1).None? then 1 else 0
  }

  ghost predicate Distinct(due: seq<(CampaignId, Env)>) {
    forall i, j :: 0 <= i < j < |due| ==> due[i].0 != due[j].0
  }

  lemma LaunchLeavesOthers(s: State, c: CampaignId, env: Env, d: CampaignId)
    requires Inv(s) && c != d && d in s.campaigns
    ensures d in Launch(s, c, env).0.campaigns && Launch(s, c, env).0.campaigns[d] == s.campaigns[d]
  {
    if Launch(s, c, env).1.Ok? { LaunchClones(s, c, env); }
  }

  lemma {:induction false} AcceptedSame(s: State, s': State, due: seq<(CampaignId, Env)>)
    requires forall i :: 0 <= i < |due| ==>
        due[i].0 in s.campaigns && due[i].0 in s'.campaigns && s'.campaigns[due[i].0] == s.campaigns[due[i].0]
    ensures Accepted(s', due) == Accepted(s, due)
    decreases |due|
  {
    if due != [] {
      assert forall i :: 0 <= i < |due[1..]| ==> due[1..][i] == due[i + 1];
      AcceptedSame(s, s', due[1..]);
      assert due[0].0 in s.campaigns;
    }
  }

  /** A launch leaves the campaigns of a list alone when it is of none of them. */
  lemma LaunchLeavesAll(s: State, c: CampaignId, env: Env, due: seq<(CampaignId, Env)>)
    requires Inv(s) && forall i :: 0 <= i < |due| ==> due[i].0 in s.campaigns && due[i].0 != c
    ensures
      var s1 := Launch(s, c, env).0;
      forall i :: 0 <= i < |due| ==> due[i].0 in s1.campaigns && s1.campaigns[due[i].0] == s.campaigns[due[i].0]
  {
    forall i | 0 <= i < |due| ensures
      due[i].0 in Launch(s, c, env).0.campaigns && Launch(s, c, env).0.campaigns[due[i].0] == s.campaigns[due[i].0]
    {
      LaunchLeavesOthers(s, c, env, due[i].0);
    }
  }

  function Launches(due: seq<(CampaignId, Env)>): seq<Action> {
    seq(|due|, i requires 0 <= i < |due| => DoLaunch(due[i].0, due[i].1))
  }

  lemma LaunchesNext(due: seq<(CampaignId, Env)>)
    requires due != []
    ensures Launches(due)[0] == DoLaunch(due[0].0, due[0].1) && Launches(due)[1..] == Launches(due[1..])
  {
  }

  lemma DistinctNext(s: State, due: seq<(CampaignId, Env)>)
    requires Distinct(due) && due != [] && forall i :: 0 <= i < |due| ==> due[i].0 in s.campaigns
    ensures Distinct(due[1..])
    ensures forall i :: 0 <= i < |due[1..]| ==> due[1..][i].0 in s.campaigns && due[1..][i].0 != due[0].0
  {
    assert forall i :: 0 <= i < |due[1..]| ==> due[1..][i] == due[i + 1];
  }

  /** A tick launches exactly the due campaigns that would be accepted on their own: a refusal stops none of
      the others, and no launch changes the outcome of a later one. The state it reaches is that of a run of
      launches. */
  lemma {:induction false} TickLaunchesAccepted(s: State, due: seq<(CampaignId, Env)>)
    requires Inv(s) && Distinct(due) && forall i :: 0 <= i < |due| ==> due[i].0 in s.campaigns
    ensures LaunchAll(s, due).1 == Accepted(s, due)
    ensures LaunchAll(s, due).0 == Run(s, Launches(due))
    decreases |due|
  {
    if due != [] {
      var (c, env) := due[0];
      var s1 := Launch(s, c, env).0;
      DistinctNext(s, due);
      LaunchesNext(due);
      LaunchKeepsInv(s, c, env);
      LaunchLeavesAll(s, c, env, due[1..]);
      AcceptedSame(s, s1, due[1..]);
      TickLaunchesAccepted(s1, due[1..]);
    }
  }

  lemma {:induction false} LaunchAllLeaves(s: State, due: seq<(CampaignId, Env)>, d: CampaignId)
    requires Inv(s) && d in s.campaigns && forall i :: 0 <= i < |due| ==> due[i].0 != d
    ensures d in LaunchAll(s, due).0.campaigns && LaunchAll(s, due).0.campaigns[d] == s.campaigns[d]
    decreases |due|
  {
    if due != [] {
      LaunchLeavesOthers(s, due[0].0, due[0].1, d);
      LaunchKeepsInv(s, due[0].0, due[0].1);
      LaunchAllLeaves(Launch(s, due[0].0, due[0].1).0, due[1..], d);
    }
  }

  /** The campaign is active exactly when its launch was acceptable, and otherwise its record is as it was. */
  ghost predicate Decided(s: State, s': State, c: CampaignId, env: Env) {
    && (HasStatus(s', c, Active) <==> LaunchRefusal(s, c, env).None?)
    && (LaunchRefusal(s, c, env).Some? ==> c in s.campaigns && c in s'.campaigns && s'.campaigns[c] == s.campaigns[c])
  }

  /** After the tick that is so of every due draft; and every campaign that was not due is as it was. */
  lemma {:induction false} TickActivates(s: State, due: seq<(CampaignId, Env)>, i: nat)
    requires Inv(s) && Distinct(due) && forall j :: 0 <= j < |due| ==> due[j].0 in s.campaigns
    requires i < |due| && HasStatus(s, due[i].0, Draft)
    ensures Decided(s, LaunchAll(s, due).0, due[i].0, due[i].1)
    decreases |due|
  {
    var (d, env) := due[0];
    var (s1, rest) := (Launch(s, d, env).0, due[1..]);
    DistinctNext(s, due);
    LaunchKeepsInv(s, d, env);
    if i == 0 {
      LaunchedOrSame(s, d, env);
      LaunchAllLeaves(s1, rest, d);
    } else {
      LaunchLeavesAll(s, d, env, rest);
      TickActivates(s1, rest, i - 1);
      DecidedBefore(s, s1, LaunchAll(s1, rest).0, rest[i - 1].0, rest[i - 1].1);
    }
  }

  lemma DecidedBefore(s: State, s1: State, s2: State, c: CampaignId, env: Env)
    requires c in s.campaigns && c in s1.campaigns && s1.campaigns[c] == s.campaigns[c] && Decided(s1, s2, c, env)
    ensures Decided(s, s2, c, env)
  {
  }

  lemma LaunchedOrSame(s: State, c: CampaignId, env: Env)
    requires Inv(s) && HasStatus(s, c, Draft)
    ensures HasStatus(Launch(s, c, env).0, c, Active) <==> LaunchRefusal(s, c, env).None?
    ensures c in Launch(s, c, env).0.campaigns
    ensures LaunchRefusal(s, c, env).Some? ==> Launch(s, c, env).0 == s
  {
    if LaunchRefusal(s, c, env).None? { LaunchClones(s, c, env); }
  }

  // ---------- An occurrence when its time comes ----------

  /** So when its time comes, and nobody has chosen a domain for it, the tick finds it due and refuses it, whatever
      the environment; and it stays due. */
  lemma OccurrenceRefusedWhenDue(s: State, c: CampaignId, env: Env, later: Env)
    requires Inv(s) && Launch(s, c, env).1.Ok? && Recurs(s.campaigns[c])
    requires later.now >= env.now + s.campaigns[c].recurrenceDays.value * MS_PER_DAY
    ensures
      var (s', n) := (Launch(s, c, env).0, s.nextCampaign);
      && n in Due(s', later.now)
      && Launch(s', n, later).1 == Err(NotReady)
      && LaunchAll(s', [(n, later)]) == (s', 0)
  {
    var (s', n) := (Launch(s, c, env).0, s.nextCampaign);
    LaunchClones(s, c, env);
    assert SameSchedule(s'.campaigns[n], s.campaigns[c]);
    assert IsOccurrence(s', n, s'.campaigns[n], None, s'.campaigns[n].scheduledSendAt) by { CloneIsDormant(s, c, env); }
    OccurrenceLaunchIff(s, c, env, s', None, s'.campaigns[n].scheduledSendAt, later);
    assert [(n, later)][1..] == [];
  }

  // ---------- Scheduling ----------

  /** A draft becomes due at exactly the time it is scheduled for, and a cleared one never; nothing else becomes
      due or stops being so, and no other part of the state changes. Only drafts can be scheduled. */
  lemma ScheduleSetsDue(s: State, c: CampaignId, at: Option<int>, now: int)
    ensures
      var (s', refusal) := Schedule(s, c, at);
      && (refusal.None? <==> HasStatus(s, c, Draft))
      && (refusal.Some? ==> s' == s)
      && (refusal.None? ==>
            && Due(s', now) == Due(s, now) - {c} + (if at.Some? && at.value <= now then {c} else {})
            && s' == s.(campaigns := s'.campaigns) && s'.campaigns - {c} == s.campaigns - {c})
  {
  }
}
