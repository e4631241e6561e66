/** The send worker: from picking a job up to returning or throwing, with others at work between its steps. */
module SendWorker {
  import opened Wrappers
  import opened CampaignProtocol
  import opened CampaignInvariants
  import opened CampaignLaunch
  import opened CampaignsService

  // ---------- A worker's job is its own ----------

  /** A step of anybody but the worker that holds this id. */
  predicate Foreign(a: Action, id: SendId) {
    !(WorkerStep(a) && a.id == id)
  }

  ghost predicate AllForeign(actions: seq<Action>, id: SendId) {
    forall i :: 0 <= i < |actions| ==> Foreign(actions[i], id)
  }

  /** What nobody else touches while a worker holds the id: its phase, its job, its mails and lost stamps, and, as
      long as it is there, its row. */
  ghost predicate Held(s: State, s': State, id: SendId) {
    && id in s.workers && id in s'.workers && s'.workers[id] == s.workers[id]
    && id in s.jobs && id in s'.jobs && s'.jobs[id] == s.jobs[id]
    && (forall c :: s'.log[Mail(id, c)] == s.log[Mail(id, c)]) && s'.lost[id] == s.lost[id]
    && (id in s'.sends ==> id in s.sends && s'.sends[id] == s.sends[id])
  }

  lemma HeldByQueue(s: State, s': State, id: SendId)
    requires QueueInv(s) && id in s.workers
    requires s'.workers == s.workers && s'.log == s.log && s'.lost == s.lost
    requires QueueOnly(s.sends, s.jobs, s'.jobs)
    requires id in s'.sends ==> id in s.sends && s'.sends[id] == s.sends[id]
    ensures Held(s, s', id)
  {
  }

  lemma HeldByWorker(s: State, a: Action, id: SendId)
    requires Inv(s) && id in s.workers && WorkerStep(a) && a.id != id
    ensures Held(s, Apply(s, a), id)
  {
    WorkerStepKeepsInv(s, a);
    HeldAt(s, Apply(s, a), a.id, id);
  }

  lemma HeldAt(s: State, s': State, k: SendId, id: SendId)
    requires QueueInv(s) && id in s.workers && OnlyAt(s, s', k) && id != k
    ensures Held(s, s', id)
  {
    forall c ensures s'.log[Mail(id, c)] == s.log[Mail(id, c)] {
      assert Mail(id, c).send != k;
    }
  }

  lemma HeldByLaunch(s: State, c: CampaignId, env: Env, id: SendId)
    requires Inv(s) && id in s.workers
    ensures Held(s, Launch(s, c, env).0, id)
  {
    if Launch(s, c, env).1.Ok? {
      ActivateRows(s, c, env);
      LaunchActivates(s, c, env);
      assert id in s.jobs && id < s.nextSend;
    }
  }

  lemma ResumeQueue(s: State, c: CampaignId)
    ensures
      var s' := Resume(s, c).0;
      && s'.sends == s.sends && s'.workers == s.workers && s'.log == s.log && s'.lost == s.lost
      && QueueOnly(s.sends, s.jobs, s'.jobs)
  {
    if HasStatus(s, c, Paused) { assert Unsent(SetStatus(s, c, Active), c) == Unsent(s, c); }
  }

  lemma KillQueue(s: State, c: CampaignId)
    ensures
      var s' := Kill(s, c).0;
      && s'.sends == s.sends && s'.workers == s.workers && s'.log == s.log && s'.lost == s.lost
      && QueueOnly(s.sends, s.jobs, s'.jobs)
  {
    QueueFrame(s, c);
  }

  lemma RetryQueue(s: State, c: CampaignId)
    ensures
      var s' := RetryUnsent(s, c).0;
      && s'.sends == s.sends && s'.workers == s.workers && s'.log == s.log && s'.lost == s.lost
      && QueueOnly(s.sends, s.jobs, s'.jobs)
  {
    QueueFrame(s, c);
  }

  lemma HeldByService(s: State, a: Action, id: SendId)
    requires Inv(s) && id in s.workers && (a.DoResume? || a.DoKill? || a.DoRetry?)
    ensures Held(s, Apply(s, a), id)
  {
    match a
    case DoResume(c) =>
      ResumeQueue(s, c);
      HeldByQueue(s, Resume(s, c).0, id);
    case DoKill(c) =>
      KillQueue(s, c);
      HeldByQueue(s, Kill(s, c).0, id);
    case DoRetry(c) =>
      RetryQueue(s, c);
      HeldByQueue(s, RetryUnsent(s, c).0, id);
  }

  lemma HeldByOutside(s: State, a: Action, id: SendId)
    requires QueueInv(s) && id in s.workers
    requires a.DoCreate? || a.DoSchedule? || a.DoPause? || a.SetDomain? || a.Evict? || a.RemoveEmployee?
    ensures Held(s, Apply(s, a), id)
  {
    HeldByQueue(s, Apply(s, a), id);
  }

  lemma HeldOne(s: State, a: Action, id: SendId)
    requires Inv(s) && id in s.workers && Foreign(a, id)
    ensures Held(s, Apply(s, a), id)
  {
    if WorkerStep(a) {
      HeldByWorker(s, a, id);
    } else if a.DoLaunch? {
      HeldByLaunch(s, a.c, a.env, id);
    } else if a.DoResume? || a.DoKill? || a.DoRetry? {
      HeldByService(s, a, id);
    } else {
      HeldByOutside(s, a, id);
    }
  }

  /** Whatever the others do meanwhile, in any order and for as long as they like. */
  lemma {:induction false} WorkerIsAlone(s: State, actions: seq<Action>, id: SendId)
    requires Inv(s) && id in s.workers && AllForeign(actions, id)
    ensures Inv(Run(s, actions)) && Held(s, Run(s, actions), id)
    decreases |actions|
  {
    if actions != [] {
      var s1 := Apply(s, actions[0]);
      HeldOne(s, actions[0], id);
      StepKeepsInv(s, actions[0]);
      WorkerIsAlone(s1, actions[1..], id);
      assert Held(s, s1, id) && Held(s1, Run(s1, actions[1..]), id);
    }
  }

  // ---------- Three attempts ----------

  predicate AttemptsOk(job: Job) {
    job.attempts <= 3 && (job.state == Failed <==> job.attempts == 3)
  }

  ghost predicate AttemptsInv(s: State) {
    forall id :: id in s.jobs ==> AttemptsOk(s.jobs[id])
  }

  /** Every job afterwards was there, or is a new waiting one. */
  lemma JobsKept(s: State, s': State)
    requires AttemptsInv(s)
    requires forall id :: id in s'.jobs ==>
               s'.jobs[id] == Job(Waiting, 0, s'.jobs[id].campaign) || (id in s.jobs && s'.jobs[id] == s.jobs[id])
    ensures AttemptsInv(s')
  {
  }

  lemma ThrowAttempts(s: State, id: SendId)
    requires QueueInv(s) && AttemptsInv(s)
    ensures AttemptsInv(Throw(s, id))
  {
  }

  lemma ClaimAttempts(s: State, id: SendId)
    requires QueueInv(s) && AttemptsInv(s)
    ensures AttemptsInv(Claim(s, id)) && AttemptsInv(Return(s, id))
  {
  }

  lemma WorkerAttempts(s: State, a: Action)
    requires QueueInv(s) && AttemptsInv(s) && WorkerStep(a)
    ensures AttemptsInv(Apply(s, a))
  {
    ClaimAttempts(s, a.id);
    ThrowAttempts(s, a.id);
    match a
    case DoClaim(id) =>
    case DoReturn(id) =>
    case DoThrow(id) =>
    case DoStamp(id) => if InPhase(s, id, Mailed) && id in s.sends { JobsKept(s, Stamp(s, id)); }
    case DoRead(id) => JobsKept(s, Read(s, id));
    case DoRender(id, found) => JobsKept(s, Render(s, id, found));
    case DoMail(id) => JobsKept(s, SendMail(s, id));
  }

  lemma ServiceAttempts(s: State, a: Action)
    requires AttemptsInv(s) && (a.DoLaunch? || a.DoResume? || a.DoKill? || a.DoRetry?)
    ensures AttemptsInv(Apply(s, a))
  {
    match a
    case DoLaunch(c, env) => JobsKept(s, Launch(s, c, env).0);
    case DoResume(c) => JobsKept(s, Resume(s, c).0);
    case DoKill(c) => JobsKept(s, Kill(s, c).0);
    case DoRetry(c) => JobsKept(s, RetryUnsent(s, c).0);
  }

  lemma StepKeepsAttempts(s: State, a: Action)
    requires QueueInv(s) && AttemptsInv(s)
    ensures AttemptsInv(Apply(s, a))
  {
    if WorkerStep(a) {
      WorkerAttempts(s, a);
    } else if a.DoLaunch? || a.DoResume? || a.DoKill? || a.DoRetry? {
      ServiceAttempts(s, a);
    }
  }

  lemma {:induction false} RunKeepsAttempts(s: State, actions: seq<Action>)
    requires Inv(s) && AttemptsInv(s)
    ensures AttemptsInv(Run(s, actions))
    decreases |actions|
  {
    if actions != [] {
      StepKeepsAttempts(s, actions[0]);
      StepKeepsInv(s, actions[0]);
      RunKeepsAttempts(Apply(s, actions[0]), actions[1..]);
    }
  }

  /** In every run from the empty state, a job is never attempted more than three times, and fails for good exactly
      with the third failure. */
  lemma ThreeAttempts(actions: seq<Action>, id: SendId)
    requires id in Run(EMPTY, actions).jobs
    ensures
      var job := Run(EMPTY, actions).jobs[id];
      job.attempts <= 3 && (job.state == Failed <==> job.attempts == 3)
  {
    RunKeepsAttempts(EMPTY, actions);
  }

  // ---------- One job, start to end ----------

  datatype Outcome = Skipped | Sent | Threw(mailed: bool)

  function MailsOf(outcome: Outcome): nat {
    if outcome.Sent? || outcome == Threw(true) then 1 else 0
  }

  /** The job after a failed attempt. */
  function Retried(job: Job): Job {
    Job(if job.attempts + 1 < MAX_ATTEMPTS then Delayed else Failed, job.attempts + 1, job.campaign)
  }

  /** The row may go out. */
  predicate Ready(s: State, id: SendId) {
    id in s.sends && !s.sends[id].sent && HasStatus(s, s.sends[id].campaign, Active)
  }

  /** Between two steps: the worker is in this phase, has sent so many mails, and nothing else of its own changed. */
  ghost predicate At(s0: State, s: State, id: SendId, phase: Phase, mails: nat) {
    && Inv(s) && InPhase(s, id, phase) && id in s0.jobs
    && id in s.jobs && s.jobs[id] == s0.jobs[id].(state := Running)
    && (forall c :: s.log[Mail(id, c)] == s0.log[Mail(id, c)] + if c == s0.jobs[id].campaign then mails else 0)
    && s.lost[id] == s0.lost[id]
    && (id in s.sends ==> id in s0.sends)
    && (id in s.sends && phase != Returning ==> s.sends[id] == s0.sends[id])
  }

  /** At the end: one mail if it was sent, one lost stamp if the job threw after it, the job finished or retried,
      the row stamped or as it was, unless it has been deleted. */
  ghost predicate Done(s0: State, s: State, id: SendId, outcome: Outcome) {
    && Inv(s) && id !in s.workers && id in s0.jobs && id in s.jobs
    && s.log[Mail(id, s0.jobs[id].campaign)] == s0.log[Mail(id, s0.jobs[id].campaign)] + MailsOf(outcome)
    && s.lost[id] == s0.lost[id] + (if outcome == Threw(true) then 1 else 0)
    && s.jobs[id] == (if outcome.Threw? then Retried(s0.jobs[id]) else s0.jobs[id].(state := Finished))
    && (id in s.sends ==>
          id in s0.sends && s.sends[id] == s0.sends[id].(sent := s0.sends[id].sent || outcome.Sent?))
  }

  lemma AtClaim(s: State, id: SendId)
    requires Inv(s) && id in s.jobs && (s.jobs[id].state == Waiting || s.jobs[id].state == Delayed)
    ensures At(s, Apply(s, DoClaim(id)), id, Claimed, 0)
  {
    ClaimKeepsInv(s, id);
  }

  lemma AtOthers(s0: State, s: State, id: SendId, phase: Phase, mails: nat, actions: seq<Action>)
    requires At(s0, s, id, phase, mails) && AllForeign(actions, id)
    ensures At(s0, Run(s, actions), id, phase, mails) && Held(s, Run(s, actions), id)
  {
    WorkerIsAlone(s, actions, id);
  }

  lemma AtRead(s0: State, s: State, id: SendId)
    requires At(s0, s, id, Claimed, 0)
    ensures At(s0, Apply(s, DoRead(id)), id, if Ready(s, id) then Checked else Returning, 0)
    ensures RowAs(s0, Apply(s, DoRead(id)), id, false)
  {
    ReadKeepsInv(s, id);
  }

  lemma AtRender(s0: State, s: State, id: SendId, found: bool)
    requires At(s0, s, id, Checked, 0)
    ensures At(s0, Apply(s, DoRender(id, found)), id, if found then Rendered else Returning, 0)
    ensures RowAs(s0, Apply(s, DoRender(id, found)), id, false)
  {
    RenderKeepsInv(s, id, found);
  }

  lemma AtMail(s0: State, s: State, id: SendId)
    requires At(s0, s, id, Rendered, 0)
    ensures At(s0, Apply(s, DoMail(id)), id, Mailed, 1)
  {
    MailKeepsInv(s, id);
  }

  lemma AtStamp(s0: State, s: State, id: SendId)
    requires At(s0, s, id, Mailed, 1) && id in s.sends
    ensures At(s0, Apply(s, DoStamp(id)), id, Returning, 1)
    ensures RowAs(s0, Apply(s, DoStamp(id)), id, true)
  {
    StampKeepsInv(s, id);
  }

  lemma DoneThrow(s0: State, s: State, id: SendId, phase: Phase)
    requires phase != Returning && At(s0, s, id, phase, if phase == Mailed then 1 else 0)
    ensures Done(s0, Apply(s, DoThrow(id)), id, Threw(phase == Mailed))
  {
    ThrowKeepsInv(s, id);
  }

  lemma DoneReturn(s0: State, s: State, id: SendId, sent: bool)
    requires At(s0, s, id, Returning, if sent then 1 else 0) && RowAs(s0, s, id, sent)
    ensures Done(s0, Apply(s, DoReturn(id)), id, if sent then Sent else Skipped)
  {
    ReturnKeepsInv(s, id);
  }

  lemma Then(s: State, trace: seq<Action>, a: Action)
    ensures Run(s, trace + [a]) == Apply(Run(s, trace), a)
  {
    RunAppend(s, trace, [a]);
    assert [a][1..] == [];
  }

  // ---------- Its whole course ----------

  /** What everybody else does while the worker is in a phase. */
  type Meanwhile = Phase -> seq<Action>

  ghost predicate Fair(s: State, id: SendId, others: Meanwhile) {
    && Inv(s) && id in s.jobs && (s.jobs[id].state == Waiting || s.jobs[id].state == Delayed)
    && forall phase :: AllForeign(others(phase), id)
  }

  function UntilRead(id: SendId, others: Meanwhile): seq<Action> {
    [DoClaim(id)] + others(Claimed)
  }

  function UntilRender(id: SendId, others: Meanwhile): seq<Action> {
    UntilRead(id, others) + [DoRead(id)] + others(Checked)
  }

  function UntilMail(id: SendId, others: Meanwhile): seq<Action> {
    UntilRender(id, others) + [DoRender(id, true)] + others(Rendered)
  }

  function UntilStamp(id: SendId, others: Meanwhile): seq<Action> {
    UntilMail(id, others) + [DoMail(id)] + others(Mailed)
  }

  function Returned(trace: seq<Action>, id: SendId, others: Meanwhile): seq<Action> {
    trace + others(Returning) + [DoReturn(id)]
  }

  /** One step of the worker and what the others do after it. */
  lemma StepThenOthers(s0: State, trace: seq<Action>, a: Action, id: SendId, phase: Phase, mails: nat,
      more: seq<Action>)
    requires At(s0, Apply(Run(s0, trace), a), id, phase, mails) && AllForeign(more, id)
    ensures At(s0, Run(s0, trace + [a] + more), id, phase, mails)
    ensures Held(Apply(Run(s0, trace), a), Run(s0, trace + [a] + more), id)
  {
    Then(s0, trace, a);
    RunAppend(s0, trace + [a], more);
    AtOthers(s0, Run(s0, trace + [a]), id, phase, mails, more);
  }

  lemma ClaimedAt(s: State, id: SendId, others: Meanwhile)
    requires Fair(s, id, others)
    ensures At(s, Run(s, UntilRead(id, others)), id, Claimed, 0)
  {
    AtClaim(s, id);
    StepThenOthers(s, [], DoClaim(id), id, Claimed, 0, others(Claimed));
    assert [] + [DoClaim(id)] == [DoClaim(id)];
  }

  /** The worker passes the check exactly when the row is ready at that moment. */
  lemma CheckedAt(s: State, id: SendId, others: Meanwhile)
    requires Fair(s, id, others)
    ensures
      var (found, read) := (Run(s, UntilRead(id, others)), Run(s, UntilRead(id, others) + [DoRead(id)]));
      InPhase(read, id, if Ready(found, id) then Checked else Returning)
    ensures Ready(Run(s, UntilRead(id, others)), id) ==> At(s, Run(s, UntilRender(id, others)), id, Checked, 0)
  {
    var t := UntilRead(id, others);
    ClaimedAt(s, id, others);
    AtRead(s, Run(s, t), id);
    Then(s, t, DoRead(id));
    if Ready(Run(s, t), id) {
      StepThenOthers(s, t, DoRead(id), id, Checked, 0, others(Checked));
    }
  }

  lemma RenderedAt(s: State, id: SendId, others: Meanwhile)
    requires Fair(s, id, others) && Ready(Run(s, UntilRead(id, others)), id)
    ensures At(s, Run(s, UntilMail(id, others)), id, Rendered, 0)
  {
    CheckedAt(s, id, others);
    AtRender(s, Run(s, UntilRender(id, others)), id, true);
    StepThenOthers(s, UntilRender(id, others), DoRender(id, true), id, Rendered, 0, others(Rendered));
  }

  lemma MailedAt(s: State, id: SendId, others: Meanwhile)
    requires Fair(s, id, others) && Ready(Run(s, UntilRead(id, others)), id)
    ensures At(s, Run(s, UntilStamp(id, others)), id, Mailed, 1)
  {
    RenderedAt(s, id, others);
    AtMail(s, Run(s, UntilMail(id, others)), id);
    StepThenOthers(s, UntilMail(id, others), DoMail(id), id, Mailed, 1, others(Mailed));
  }

  lemma Throws(s0: State, trace: seq<Action>, id: SendId, phase: Phase)
    requires phase != Returning && At(s0, Run(s0, trace), id, phase, if phase == Mailed then 1 else 0)
    ensures Done(s0, Run(s0, trace + [DoThrow(id)]), id, Threw(phase == Mailed))
    ensures Run(s0, trace + [DoThrow(id)]).sends == Run(s0, trace).sends
  {
    Then(s0, trace, DoThrow(id));
    DoneThrow(s0, Run(s0, trace), id, phase);
  }

  lemma ReturnedRun(s0: State, trace: seq<Action>, id: SendId, others: Meanwhile)
    ensures Run(s0, Returned(trace, id, others)) == Apply(Run(Run(s0, trace), others(Returning)), DoReturn(id))
  {
    RunAppend(s0, trace, others(Returning));
    Then(s0, trace + others(Returning), DoReturn(id));
  }

  /** After its last step the worker returns, whatever the others do before the queue takes note. */
  lemma Returns(s0: State, s: State, id: SendId, more: seq<Action>, sent: bool)
    requires At(s0, s, id, Returning, if sent then 1 else 0) && RowAs(s0, s, id, sent) && AllForeign(more, id)
    ensures Done(s0, Apply(Run(s, more), DoReturn(id)), id, if sent then Sent else Skipped)
  {
    AtOthers(s0, s, id, Returning, if sent then 1 else 0, more);
    RowHeld(s0, s, Run(s, more), id, sent);
    DoneReturn(s0, Run(s, more), id, sent);
  }

  /** The row, if it is there, is as it was at the start, or stamped. */
  predicate RowAs(s0: State, s: State, id: SendId, sent: bool) {
    id in s.sends ==> id in s0.sends && s.sends[id] == if sent then s0.sends[id].(sent := true) else s0.sends[id]
  }

  lemma RowHeld(s0: State, s: State, s': State, id: SendId, sent: bool)
    requires RowAs(s0, s, id, sent) && Held(s, s', id)
    ensures RowAs(s0, s', id, sent)
  {
  }

  // ---------- The ways it can end ----------

  lemma EndsInFault(s: State, id: SendId, others: Meanwhile, phase: Phase)
    requires Fair(s, id, others) && phase != Returning
    requires phase != Claimed ==> Ready(Run(s, UntilRead(id, others)), id)
    ensures
      var t := Until(phase, id, others);
      && Done(s, Run(s, t + [DoThrow(id)]), id, Threw(phase == Mailed))
      && Run(s, t + [DoThrow(id)]).sends == Run(s, t).sends
  {
    match phase {
      case Claimed => ClaimedAt(s, id, others);
      case Checked => CheckedAt(s, id, others);
      case Rendered => RenderedAt(s, id, others);
      case Mailed => MailedAt(s, id, others);
    }
    Throws(s, Until(phase, id, others), id, phase);
  }

  /** What has been done by the end of a phase. */
  function Until(phase: Phase, id: SendId, others: Meanwhile): seq<Action>
    requires phase != Returning
  {
    match phase
    case Claimed => UntilRead(id, others)
    case Checked => UntilRender(id, others)
    case Rendered => UntilMail(id, others)
    case Mailed => UntilStamp(id, others)
  }

  lemma EndsAtCheck(s: State, id: SendId, others: Meanwhile)
    requires Fair(s, id, others) && !Ready(Run(s, UntilRead(id, others)), id)
    ensures Done(s, Run(s, Returned(UntilRead(id, others) + [DoRead(id)], id, others)), id, Skipped)
  {
    var t := UntilRead(id, others);
    ClaimedAt(s, id, others);
    AtRead(s, Run(s, t), id);
    Then(s, t, DoRead(id));
    Returns(s, Run(s, t + [DoRead(id)]), id, others(Returning), false);
    ReturnedRun(s, t + [DoRead(id)], id, others);
  }

  lemma EndsAtRender(s: State, id: SendId, others: Meanwhile)
    requires Fair(s, id, others) && Ready(Run(s, UntilRead(id, others)), id)
    ensures Done(s, Run(s, Returned(UntilRender(id, others) + [DoRender(id, false)], id, others)), id, Skipped)
  {
    CheckedAt(s, id, others);
    var t := UntilRender(id, others);
    AtRender(s, Run(s, t), id, false);
    Then(s, t, DoRender(id, false));
    Returns(s, Run(s, t + [DoRender(id, false)]), id, others(Returning), false);
    ReturnedRun(s, t + [DoRender(id, false)], id, others);
  }

  lemma EndsSent(s: State, id: SendId, others: Meanwhile)
    requires Fair(s, id, others) && Ready(Run(s, UntilRead(id, others)), id)
    requires id in Run(s, UntilStamp(id, others)).sends
    ensures Done(s, Run(s, Returned(UntilStamp(id, others) + [DoStamp(id)], id, others)), id, Sent)
  {
    MailedAt(s, id, others);
    var t := UntilStamp(id, others);
    AtStamp(s, Run(s, t), id);
    Then(s, t, DoStamp(id));
    Returns(s, Run(s, t + [DoStamp(id)]), id, others(Returning), true);
    ReturnedRun(s, t + [DoStamp(id)], id, others);
  }

  /** From the rendered mail on: the outcome, and all that has been done by then. */
  function MailCourse(s: State, id: SendId, fault: Option<Phase>, others: Meanwhile): (Outcome, seq<Action>) {
    var t := UntilStamp(id, others);
    if fault == Some(Mailed) || id !in Run(s, t).sends then (Threw(true), t + [DoThrow(id)])
    else (Sent, Returned(t + [DoStamp(id)], id, others))
  }

  function DeliveryCourse(s: State, id: SendId, scenarioFound: bool, fault: Option<Phase>, others: Meanwhile)
    : (Outcome, seq<Action>)
  {
    if fault == Some(Checked) then (Threw(false), UntilRender(id, others) + [DoThrow(id)])
    else if !scenarioFound then (Skipped, Returned(UntilRender(id, others) + [DoRender(id, false)], id, others))
    else if fault == Some(Rendered) then (Threw(false), UntilMail(id, others) + [DoThrow(id)])
    else MailCourse(s, id, fault, others)
  }

  function Course(s: State, id: SendId, scenarioFound: bool, fault: Option<Phase>, others: Meanwhile)
    : (Outcome, seq<Action>)
  {
    var t := UntilRead(id, others);
    if fault == Some(Claimed) then (Threw(false), t + [DoThrow(id)])
    else if !Ready(Run(s, t), id) then (Skipped, Returned(t + [DoRead(id)], id, others))
    else DeliveryCourse(s, id, scenarioFound, fault, others)
  }

  lemma MailCourseDone(s: State, id: SendId, fault: Option<Phase>, others: Meanwhile)
    requires Fair(s, id, others) && Ready(Run(s, UntilRead(id, others)), id)
    ensures
      var (outcome, trace) := MailCourse(s, id, fault, others);
      && Done(s, Run(s, trace), id, outcome)
      && (fault == Some(Mailed) ==> outcome == Threw(true))
      && (outcome == Sent || (outcome == Threw(true) && (fault == Some(Mailed) || id !in Run(s, trace).sends)))
  {
    if fault == Some(Mailed) || id !in Run(s, UntilStamp(id, others)).sends {
      EndsInFault(s, id, others, Mailed);
    } else {
      EndsSent(s, id, others);
    }
  }

  lemma DeliveryCourseDone(s: State, id: SendId, scenarioFound: bool, fault: Option<Phase>, others: Meanwhile)
    requires Fair(s, id, others) && Ready(Run(s, UntilRead(id, others)), id)
    ensures
      var (outcome, trace) := DeliveryCourse(s, id, scenarioFound, fault, others);
      Done(s, Run(s, trace), id, outcome)
  {
    if fault == Some(Checked) {
      EndsInFault(s, id, others, Checked);
    } else if !scenarioFound {
      EndsAtRender(s, id, others);
    } else if fault == Some(Rendered) {
      EndsInFault(s, id, others, Rendered);
    } else {
      MailCourseDone(s, id, fault, others);
    }
  }

  /** How the job ends, for every fault: the row goes out only if it is ready at the moment of the read; a call that
      throws before the mail stops it, and one that throws after it loses the stamp, as a deleted row does; and job,
      mails, lost stamps and row end as the outcome says. */
  lemma CourseDone(s: State, id: SendId, scenarioFound: bool, fault: Option<Phase>, others: Meanwhile)
    requires Fair(s, id, others)
    ensures
      var (outcome, trace) := Course(s, id, scenarioFound, fault, others);
      var ready := Ready(Run(s, UntilRead(id, others)), id);
      && Done(s, Run(s, trace), id, outcome)
      && (fault == Some(Claimed) ==> outcome == Threw(false))
      && (fault != Some(Claimed) && !ready ==> outcome == Skipped)
      && (ready && fault == Some(Checked) ==> outcome == Threw(false))
      && (ready && fault != Some(Claimed) && fault != Some(Checked) && !scenarioFound ==> outcome == Skipped)
      && (ready && scenarioFound && fault == Some(Rendered) ==> outcome == Threw(false))
      && (ready && scenarioFound && fault == Some(Mailed) ==> outcome == Threw(true))
      && (ready && scenarioFound && (fault.None? || fault == Some(Returning)) ==>
            outcome == Sent || (outcome == Threw(true) && id !in Run(s, trace).sends))
  {
    if fault == Some(Claimed) {
      EndsInFault(s, id, others, Claimed);
    } else if !Ready(Run(s, UntilRead(id, others)), id) {
      EndsAtCheck(s, id, others);
    } else {
      DeliveryCourseDone(s, id, scenarioFound, fault, others);
      MailCourseDone(s, id, fault, others);
    }
  }

  // ---------- The processor ----------

  /** Any step of the protocol, taken on the store. */
  method Perform(store: Store, a: Action)
    modifies store
    ensures store.Value() == Apply(old(store.Value()), a)
  {
    if WorkerStep(a) {
      PerformWorker(store, a);
      return;
    }
    var service := new Service(store);
    match a {
      case DoCreate(campaign) => service.Create(campaign);
      case DoSchedule(c, at) => var _ := service.Schedule(c, at);
      case DoLaunch(c, env) => var _ := service.Launch(c, env);
      case DoPause(c) => var _ := service.Pause(c);
      case DoResume(c) => var _ := service.Resume(c);
      case DoKill(c) => var _ := service.Kill(c);
      case DoRetry(c) => var _ := service.RetryUnsent(c);
      case SetDomain(c, domain) =>
        if c in store.campaigns {
          store.campaigns := store.campaigns[c := store.campaigns[c].(sendingDomain := domain)];
        }
      case Evict(id) =>
        if id in store.jobs && (store.jobs[id].state == Failed || store.jobs[id].state == Finished) {
          store.jobs := store.jobs - {id};
        }
      case RemoveEmployee(e) =>
        store.sends := map id | id in store.sends && store.sends[id].employee != e :: store.sends[id];
    }
  }

  method PerformWorker(store: Store, a: Action)
    requires WorkerStep(a)
    modifies store
    ensures store.Value() == Apply(old(store.Value()), a)
  {
    var worker := new SendProcessor(store);
    if a.DoClaim? {
      worker.Claim(a.id);
    } else if a.DoRead? {
      worker.Read(a.id);
    } else if a.DoRender? {
      worker.Render(a.id, a.scenarioFound);
    } else if a.DoMail? {
      worker.Mail(a.id);
    } else {
      PerformEnd(worker, a);
    }
  }

  method PerformEnd(worker: SendProcessor, a: Action)
    requires a.DoStamp? || a.DoThrow? || a.DoReturn?
    modifies worker.store
    ensures worker.store.Value() == Apply(old(worker.store.Value()), a)
  {
    if a.DoStamp? {
      worker.Stamp(a.id);
    } else if a.DoThrow? {
      worker.Throw(a.id);
    } else {
      worker.Return(a.id);
    }
  }

  /** What everybody else does while the worker waits. */
  method Others(store: Store, actions: seq<Action>)
    modifies store
    ensures store.Value() == Run(old(store.Value()), actions)
  {
    for i := 0 to |actions|
      invariant Run(store.Value(), actions[i..]) == Run(old(store.Value()), actions)
    {
      assert actions[i..][0] == actions[i] && actions[i..][1..] == actions[i + 1..];
      Perform(store, actions[i]);
    }
  }

  class SendProcessor {
    const store: Store

    constructor (store: Store)
      ensures this.store == store
    {
      this.store := store;
    }

    method Claim(id: SendId)
      modifies store
      ensures store.Value() == CampaignProtocol.Claim(old(store.Value()), id)
    {
      if id in store.jobs && (store.jobs[id].state == Waiting || store.jobs[id].state == Delayed) {
        store.jobs := store.jobs[id := store.jobs[id].(state := Running)];
        store.workers := store.workers[id := Claimed];
      }
    }

    /** A missing row, a stamped one and a campaign that is not active are each a reason to skip. */
    method Read(id: SendId)
      modifies store
      ensures store.Value() == CampaignProtocol.Read(old(store.Value()), id)
    {
      if id !in store.workers || store.workers[id] != Claimed { return; }
      if id !in store.sends {
        store.workers := store.workers[id := Returning];
        return;
      }
      var send := store.sends[id];
      if send.sent {
        store.workers := store.workers[id := Returning];
        return;
      }
      if send.campaign !in store.campaigns || store.campaigns[send.campaign].status != Active {
        store.workers := store.workers[id := Returning];
        return;
      }
      store.workers := store.workers[id := Checked];
    }

    method Render(id: SendId, scenarioFound: bool)
      modifies store
      ensures store.Value() == CampaignProtocol.Render(old(store.Value()), id, scenarioFound)
    {
      if id in store.workers && store.workers[id] == Checked {
        store.workers := store.workers[id := if scenarioFound then Rendered else Returning];
      }
    }

    method Mail(id: SendId)
      modifies store
      ensures store.Value() == SendMail(old(store.Value()), id)
    {
      if id in store.workers && store.workers[id] == Rendered && id in store.jobs {
        store.log := store.log + multiset{CampaignProtocol.Mail(id, store.jobs[id].campaign)};
        store.workers := store.workers[id := Mailed];
      }
    }

    method Stamp(id: SendId)
      modifies store
      ensures store.Value() == CampaignProtocol.Stamp(old(store.Value()), id)
    {
      if id !in store.workers || store.workers[id] != Mailed { return; }
      if id in store.sends {
        store.sends := store.sends[id := store.sends[id].(sent := true)];
        store.workers := store.workers[id := Returning];
      } else {
        Throw(id);
      }
    }

    method Throw(id: SendId)
      modifies store
      ensures store.Value() == CampaignProtocol.Throw(old(store.Value()), id)
    {
      if id in store.workers && id in store.jobs && store.workers[id] != Returning {
        if store.workers[id] == Mailed {
          store.lost := store.lost + multiset{id};
        }
        var attempts := store.jobs[id].attempts + 1;
        var next := if attempts < MAX_ATTEMPTS then Delayed else Failed;
        store.jobs := store.jobs[id := store.jobs[id].(state := next, attempts := attempts)];
        store.workers := store.workers - {id};
      }
    }

    method Return(id: SendId)
      modifies store
      ensures store.Value() == CampaignProtocol.Return(old(store.Value()), id)
    {
      if id in store.workers && store.workers[id] == Returning && id in store.jobs {
        store.jobs := store.jobs[id := store.jobs[id].(state := Finished)];
        store.workers := store.workers - {id};
      }
    }

    /** The others take their steps while the worker waits. */
    method Await(others: seq<Action>, ghost s0: State, ghost before: seq<Action>)
      requires store.Value() == Run(s0, before)
      modifies store
      ensures store.Value() == Run(s0, before + others)
    {
      RunAppend(s0, before, others);
      Others(store, others);
    }

    /** The processor returns, and after a while the queue takes note. */
    method Finish(id: SendId, others: Meanwhile, ghost s0: State, ghost before: seq<Action>)
      requires store.Value() == Run(s0, before)
      modifies store
      ensures store.Value() == Run(s0, Returned(before, id, others))
    {
      Await(others(Returning), s0, before);
      Then(s0, before + others(Returning), DoReturn(id));
      Return(id);
    }

    /** The processor throws. */
    method Fail(id: SendId, ghost s0: State, ghost before: seq<Action>)
      requires store.Value() == Run(s0, before)
      modifies store
      ensures store.Value() == Run(s0, before + [DoThrow(id)])
    {
      Then(s0, before, DoThrow(id));
      Throw(id);
    }

    /** Looks the scenario up, renders it, mails and stamps. */
    method Deliver(id: SendId, scenarioFound: bool, fault: Option<Phase>, others: Meanwhile, ghost s0: State)
      returns (outcome: Outcome, ghost trace: seq<Action>)
      requires store.Value() == Run(s0, UntilRead(id, others) + [DoRead(id)])
      modifies store
      ensures store.Value() == Run(s0, trace)
      ensures (outcome, trace) == DeliveryCourse(s0, id, scenarioFound, fault, others)
    {
      Await(others(Checked), s0, UntilRead(id, others) + [DoRead(id)]);
      trace := UntilRender(id, others);
      if fault == Some(Checked) {
        Fail(id, s0, trace);
        return Threw(false), trace + [DoThrow(id)];
      }
      Then(s0, trace, DoRender(id, scenarioFound));
      Render(id, scenarioFound);
      if !scenarioFound {
        Finish(id, others, s0, trace + [DoRender(id, false)]);
        return Skipped, Returned(trace + [DoRender(id, false)], id, others);
      }
      Await(others(Rendered), s0, trace + [DoRender(id, true)]);
      trace := UntilMail(id, others);
      if fault == Some(Rendered) {
        Fail(id, s0, trace);
        return Threw(false), trace + [DoThrow(id)];
      }
      outcome, trace := MailAndStamp(id, fault, others, s0);
    }

    method MailAndStamp(id: SendId, fault: Option<Phase>, others: Meanwhile, ghost s0: State)
      returns (outcome: Outcome, ghost trace: seq<Action>)
      requires store.Value() == Run(s0, UntilMail(id, others))
      modifies store
      ensures store.Value() == Run(s0, trace)
      ensures (outcome, trace) == MailCourse(s0, id, fault, others)
    {
      Then(s0, UntilMail(id, others), DoMail(id));
      Mail(id);
      Await(others(Mailed), s0, UntilMail(id, others) + [DoMail(id)]);
      trace := UntilStamp(id, others);
      if fault == Some(Mailed) || id !in store.sends {
        Fail(id, s0, trace);
        return Threw(true), trace + [DoThrow(id)];
      }
      Then(s0, trace, DoStamp(id));
      Stamp(id);
      Finish(id, others, s0, trace + [DoStamp(id)]);
      return Sent, Returned(trace + [DoStamp(id)], id, others);
    }

    /**
     One job. `fault` is the phase in which an awaited call throws, if one does; `others` is what everybody else does
     while the worker is in a phase: anything, but for steps of this worker.
     */
    method Process(id: SendId, scenarioFound: bool, fault: Option<Phase>, others: Meanwhile)
      returns (outcome: Outcome, ghost trace: seq<Action>)
      requires Fair(store.Value(), id, others)
      modifies store
      ensures store.Value() == Run(old(store.Value()), trace)
      ensures Done(old(store.Value()), store.Value(), id, outcome)
      ensures
        var ready := Ready(Run(old(store.Value()), UntilRead(id, others)), id);
        && (fault == Some(Claimed) ==> outcome == Threw(false))
        && (fault != Some(Claimed) && !ready ==> outcome == Skipped)
        && (ready && fault == Some(Checked) ==> outcome == Threw(false))
        && (ready && fault != Some(Claimed) && fault != Some(Checked) && !scenarioFound ==> outcome == Skipped)
        && (ready && scenarioFound && fault == Some(Rendered) ==> outcome == Threw(false))
        && (ready && scenarioFound && fault == Some(Mailed) ==> outcome == Threw(true))
        && (ready && scenarioFound && (fault.None? || fault == Some(Returning)) ==>
              outcome == Sent || (outcome == Threw(true) && id !in store.sends))
    {
      ghost var s0 := store.Value();
      CourseDone(s0, id, scenarioFound, fault, others);
      outcome, trace := Take(id, scenarioFound, fault, others);
    }

    method Take(id: SendId, scenarioFound: bool, fault: Option<Phase>, others: Meanwhile)
      returns (outcome: Outcome, ghost trace: seq<Action>)
      requires Fair(store.Value(), id, others)
      modifies store
      ensures store.Value() == Run(old(store.Value()), trace)
      ensures (outcome, trace) == Course(old(store.Value()), id, scenarioFound, fault, others)
    {
      ghost var s0 := store.Value();
      assert [] + [DoClaim(id)] == [DoClaim(id)];
      Then(s0, [], DoClaim(id));
      Claim(id);
      Await(others(Claimed), s0, [DoClaim(id)]);
      trace := UntilRead(id, others);
      if fault == Some(Claimed) {
        Fail(id, s0, trace);
        return Threw(false), trace + [DoThrow(id)];
      }
      CheckedAt(s0, id, others);
      Then(s0, trace, DoRead(id));
      Read(id);
      if store.workers[id] == Returning {
        Finish(id, others, s0, trace + [DoRead(id)]);
        return Skipped, Returned(trace + [DoRead(id)], id, others);
      }
      outcome, trace := Deliver(id, scenarioFound, fault, others, s0);
    }
  }
}
