/** The kill switch is final and a pause holds: both bound the mails that can still go out. */
module CampaignKill {
  import opened Wrappers
  import opened CampaignProtocol
  import opened CampaignInvariants

  /** A worker of the campaign is past the status check of this row and has not mailed it yet. */
  predicate Committed(s: State, c: CampaignId, id: SendId) {
    (InPhase(s, id, Checked) || InPhase(s, id, Rendered)) && HasJob(s, c, id)
  }

  /** The row's id has a job of the campaign in the queue, in any state. */
  predicate HasJob(s: State, c: CampaignId, id: SendId) {
    id in s.jobs && s.jobs[id].campaign == c
  }

  /** The mails of a row of the campaign, counting one that is still committed. */
  function Owed(s: State, c: CampaignId, id: SendId): nat {
    s.log[Mail(id, c)] + if Committed(s, c, id) then 1 else 0
  }

  /** Killed or paused. */
  predicate Halted(s: State, c: CampaignId) {
    HasStatus(s, c, Killed) || HasStatus(s, c, Paused)
  }

  /** What a halted campaign keeps over one step: a killed one stays killed, a paused one paused or killed. */
  ghost predicate StillHalted(s: State, s': State, c: CampaignId) {
    && (HasStatus(s', c, Killed) || (HasStatus(s, c, Paused) && HasStatus(s', c, Paused)))
    && (forall id :: NoGain(s, s', c, id))
  }

  predicate NoGain(s: State, s': State, c: CampaignId, id: SendId) {
    (HasJob(s', c, id) ==> HasJob(s, c, id)) && Owed(s', c, id) <= Owed(s, c, id)
  }

  /** The two calls that put a paused campaign back to work. */
  predicate Restarts(a: Action, c: CampaignId) {
    (a.DoResume? || a.DoLaunch?) && a.c == c
  }

  /** The step leaves the campaign halted: nothing revives a killed one. */
  predicate Allowed(s: State, a: Action, c: CampaignId) {
    HasStatus(s, c, Killed) || (HasStatus(s, c, Paused) && !Restarts(a, c))
  }

  /** A step that leaves the workers and the mails alone and gives the campaign no new job. */
  lemma QuietStep(s: State, s': State, c: CampaignId)
    requires HasStatus(s', c, Killed) || (HasStatus(s, c, Paused) && HasStatus(s', c, Paused))
    requires s'.workers == s.workers && s'.log == s.log
    requires forall id :: HasJob(s', c, id) ==> HasJob(s, c, id)
    ensures StillHalted(s, s', c)
  {
  }

  lemma LaunchOther(s: State, c: CampaignId, d: CampaignId, env: Env)
    requires Allowed(s, DoLaunch(d, env), c) && IdsInv(s)
    ensures StillHalted(s, Launch(s, d, env).0, c)
  {
    if LaunchRefusal(s, d, env).None? {
      assert d != c && c < s.nextCampaign;
      QuietStep(s, Launch(s, d, env).0, c);
    } else {
      QuietStep(s, s, c);
    }
  }

  lemma ResumeOther(s: State, d: CampaignId, c: CampaignId)
    requires Allowed(s, DoResume(d), c)
    ensures StillHalted(s, Resume(s, d).0, c)
  {
    QuietStep(s, Resume(s, d).0, c);
  }

  lemma KillAny(s: State, d: CampaignId, c: CampaignId)
    requires Halted(s, c)
    ensures StillHalted(s, Kill(s, d).0, c)
  {
    QuietStep(s, Kill(s, d).0, c);
  }

  lemma RetryOther(s: State, d: CampaignId, c: CampaignId)
    requires Halted(s, c)
    ensures StillHalted(s, RetryUnsent(s, d).0, c)
  {
    QuietStep(s, RetryUnsent(s, d).0, c);
  }

  lemma EditOther(s: State, s': State, c: CampaignId)
    requires Halted(s, c) && s' == s.(campaigns := s'.campaigns)
    requires c in s'.campaigns && s'.campaigns[c].status == s.campaigns[c].status
    ensures StillHalted(s, s', c)
  {
    QuietStep(s, s', c);
  }

  lemma CreateOther(s: State, campaign: Campaign, c: CampaignId)
    requires Halted(s, c) && IdsInv(s)
    ensures StillHalted(s, Create(s, campaign), c)
  {
    assert c < s.nextCampaign;
    QuietStep(s, Create(s, campaign), c);
  }

  lemma DeletionOther(s: State, a: Action, c: CampaignId)
    requires Halted(s, c) && (a.Evict? || a.RemoveEmployee?)
    ensures StillHalted(s, Apply(s, a), c)
  {
    QuietStep(s, Apply(s, a), c);
  }

  /** A worker of a halted campaign never passes the check. */
  lemma ReadOwn(s: State, id: SendId, c: CampaignId)
    requires Halted(s, c) && IdsInv(s)
    ensures NoGain(s, Read(s, id), c, id)
  {
  }

  /** Mailing uses up a committed mail. */
  lemma MailOwn(s: State, id: SendId, c: CampaignId)
    ensures NoGain(s, SendMail(s, id), c, id)
  {
  }

  lemma StampOwn(s: State, id: SendId, c: CampaignId)
    ensures NoGain(s, Stamp(s, id), c, id)
    ensures NoGain(s, Throw(s, id), c, id)
    ensures NoGain(s, Return(s, id), c, id)
  {
  }

  lemma ClaimOwn(s: State, id: SendId, found: bool, c: CampaignId)
    ensures NoGain(s, Claim(s, id), c, id)
    ensures NoGain(s, Render(s, id, found), c, id)
  {
  }

  /** A worker of a halted campaign can only use up its committed mail. */
  lemma WorkerOwnGain(s: State, a: Action, c: CampaignId)
    requires Halted(s, c) && IdsInv(s) && WorkerStep(a)
    ensures NoGain(s, Apply(s, a), c, a.id)
  {
    if a.DoRead? {
      ReadOwn(s, a.id, c);
    } else if a.DoMail? {
      MailOwn(s, a.id, c);
    } else if a.DoStamp? || a.DoThrow? || a.DoReturn? {
      StampOwn(s, a.id, c);
    } else {
      ClaimOwn(s, a.id, a.DoRender? && a.scenarioFound, c);
    }
  }

  lemma ElsewhereNoGain(s: State, s': State, k: SendId, c: CampaignId, id: SendId)
    requires OnlyAt(s, s', k) && id != k
    ensures NoGain(s, s', c, id)
  {
    assert s'.log[Mail(id, c)] == s.log[Mail(id, c)];
  }

  lemma WorkerOther(s: State, a: Action, c: CampaignId)
    requires Halted(s, c) && Inv(s) && WorkerStep(a)
    ensures StillHalted(s, Apply(s, a), c)
  {
    var s' := Apply(s, a);
    WorkerStepKeepsInv(s, a);
    forall id ensures NoGain(s, s', c, id) {
      if id == a.id { WorkerOwnGain(s, a, c); } else { ElsewhereNoGain(s, s', a.id, c, id); }
    }
  }

  lemma HaltedStep(s: State, a: Action, c: CampaignId)
    requires Allowed(s, a, c) && Inv(s)
    ensures StillHalted(s, Apply(s, a), c)
  {
    if WorkerStep(a) {
      WorkerOther(s, a, c);
    } else {
      match a
      case DoCreate(campaign) => CreateOther(s, campaign, c);
      case DoSchedule(d, at) => EditOther(s, Schedule(s, d, at).0, c);
      case DoPause(d) => EditOther(s, Pause(s, d).0, c);
      case SetDomain(d, domain) => EditOther(s, Apply(s, a), c);
      case DoLaunch(d, env) => LaunchOther(s, c, d, env);
      case DoResume(d) => ResumeOther(s, d, c);
      case DoKill(d) => KillAny(s, d, c);
      case DoRetry(d) => RetryOther(s, d, c);
      case Evict(_) => DeletionOther(s, a, c);
      case RemoveEmployee(_) => DeletionOther(s, a, c);
    }
  }

  ghost predicate NoRestart(actions: seq<Action>, c: CampaignId) {
    forall i :: 0 <= i < |actions| ==> !Restarts(actions[i], c)
  }

  lemma HaltedTrans(s: State, s1: State, s2: State, c: CampaignId)
    requires StillHalted(s, s1, c) && StillHalted(s1, s2, c)
    ensures StillHalted(s, s2, c)
  {
    forall id ensures NoGain(s, s2, c, id) {
      assert NoGain(s, s1, c, id) && NoGain(s1, s2, c, id);
    }
  }

  lemma {:induction false} HaltedRun(s: State, actions: seq<Action>, c: CampaignId)
    requires Inv(s) && (HasStatus(s, c, Killed) || (HasStatus(s, c, Paused) && NoRestart(actions, c)))
    ensures StillHalted(s, Run(s, actions), c)
    decreases |actions|
  {
    if actions == [] {
      QuietStep(s, s, c);
    } else {
      var s1 := Apply(s, actions[0]);
      HaltedStep(s, actions[0], c);
      StepKeepsInv(s, actions[0]);
      assert NoRestart(actions, c) ==> NoRestart(actions[1..], c);
      HaltedRun(s1, actions[1..], c);
      HaltedTrans(s, s1, Run(s1, actions[1..]), c);
    }
  }

  /** No id of the campaign has a job it did not have, and every mail of it beyond those already sent
      belongs to a distinct worker that was past the status check and had not mailed yet. */
  ghost predicate BoundedBy(s: State, k: State, s': State, c: CampaignId) {
    && (forall id {:trigger HasJob(s', c, id)} :: HasJob(s', c, id) ==> HasJob(k, c, id))
    && (forall id :: s'.log[Mail(id, c)] <= s.log[Mail(id, c)] + if Committed(s, c, id) then 1 else 0)
  }

  lemma KillBound(s: State, k: State, s': State, c: CampaignId)
    requires k.log == s.log && k.workers == s.workers && (forall id :: HasJob(k, c, id) ==> HasJob(s, c, id))
    requires StillHalted(k, s', c)
    ensures BoundedBy(s, k, s', c)
  {
    forall id ensures HasJob(s', c, id) ==> HasJob(k, c, id) {
      assert NoGain(k, s', c, id);
    }
    forall id ensures s'.log[Mail(id, c)] <= s.log[Mail(id, c)] + if Committed(s, c, id) then 1 else 0 {
      assert NoGain(k, s', c, id);
    }
  }

  /**
   Once kill commits on any reachable state, then over every continuation the campaign stays killed,
   no job of it is enqueued again, and further mails of it are at most one for each of its workers
   that was past the status check and had not mailed yet.
   */
  lemma KillIsFinal(before: seq<Action>, c: CampaignId, after: seq<Action>)
    requires c in Run(EMPTY, before).campaigns
    ensures
      var s := Run(EMPTY, before);
      var k := Kill(s, c).0;
      HasStatus(Run(k, after), c, Killed) && BoundedBy(s, k, Run(k, after), c)
  {
    RunKeepsInv(EMPTY, before);
    KillCommitted(Run(EMPTY, before), c, after);
  }

  lemma KillCommitted(s: State, c: CampaignId, after: seq<Action>)
    requires Inv(s) && c in s.campaigns
    ensures var k := Kill(s, c).0; HasStatus(Run(k, after), c, Killed) && BoundedBy(s, k, Run(k, after), c)
  {
    KillKeepsInv(s, c);
    KillStep(s, c);
    HaltedRun(Kill(s, c).0, after, c);
    KillBound(s, Kill(s, c).0, Run(Kill(s, c).0, after), c);
  }

  lemma KillStep(s: State, c: CampaignId)
    requires c in s.campaigns
    ensures
      var k := Kill(s, c).0;
      && HasStatus(k, c, Killed) && k.log == s.log && k.workers == s.workers
      && (forall id :: HasJob(k, c, id) ==> HasJob(s, c, id))
  {
  }

  /**
   Pause holds: over every continuation in which nobody resumes or relaunches the campaign, it stays paused or is
   killed, no job of it is enqueued (not by retryUnsent either), and further mails are bounded in the same way.
   */
  lemma PauseHolds(before: seq<Action>, c: CampaignId, after: seq<Action>)
    requires HasStatus(Run(EMPTY, before), c, Active) && NoRestart(after, c)
    ensures
      var s := Run(EMPTY, before);
      var p := Pause(s, c).0;
      Halted(Run(p, after), c) && BoundedBy(s, p, Run(p, after), c)
  {
    RunKeepsInv(EMPTY, before);
    PauseCommitted(Run(EMPTY, before), c, after);
  }

  lemma PauseCommitted(s: State, c: CampaignId, after: seq<Action>)
    requires Inv(s) && HasStatus(s, c, Active) && NoRestart(after, c)
    ensures var p := Pause(s, c).0; Halted(Run(p, after), c) && BoundedBy(s, p, Run(p, after), c)
  {
    var p := Pause(s, c).0;
    RecordStepKeepsInv(s, DoPause(c));
    HaltedRun(p, after, c);
    KillBound(s, p, Run(p, after), c);
  }

  /** What kill drains: afterwards an unsent row of the campaign has a job only if a worker holds it,
      and the report counts the jobs that are gone and the rows still unsent. */
  lemma KillDrains(s: State, c: CampaignId)
    requires c in s.campaigns && s.campaigns[c].status != Killed
    ensures
      var (s', r) := Kill(s, c);
      && (forall id :: id in Unsent(s', c) && id in s'.jobs ==> s'.jobs[id].state == Running)
      && r == Ok(KillReport(|s.jobs.Keys| - |s'.jobs.Keys|, Some(|Unsent(s', c)|)))
  {
    var s' := Kill(s, c).0;
    assert Unsent(s', c) == Unsent(s, c);
    RemovedCount(s.jobs, Removable(s.jobs, Unsent(s, c)));
  }

  lemma RemovedCount(jobs: map<SendId, Job>, stale: set<SendId>)
    requires stale <= jobs.Keys
    ensures |(jobs - stale).Keys| == |jobs.Keys| - |stale|
  {
    assert (jobs - stale).Keys == jobs.Keys - stale;
  }
}
