/**
 The campaign and send-queue protocol as a state machine.

 A state holds the campaigns and send rows of the database, the keyed job queue,
 the phase each busy worker has reached, and every mail and lost stamp so far.
 Every service method is one atomic step; a worker takes one step per await point.
 */
module CampaignProtocol {
  import opened Wrappers

  type CampaignId = nat
  type SendId = nat
  type EmployeeId = nat
  type ScenarioId = nat
  type DomainId = nat

  const MAX_ATTEMPTS: nat := 3
  const MS_PER_DAY: int := 86_400_000

  datatype Status = Draft | Active | Paused | Killed | Completed

  datatype Campaign = Campaign(
    status: Status,
    scheduledSendAt: Option<int>,
    sendWindowMinutes: int,
    recurrenceDays: Option<int>,
    parent: Option<CampaignId>,
    targets: set<EmployeeId>,
    sendingDomain: Option<DomainId>,
    scenarios: seq<ScenarioId>)

  /** A send row; `sent` says whether its sentAt stamp is set. */
  datatype Send = Send(campaign: CampaignId, employee: EmployeeId, scenario: ScenarioId, sent: bool)

  datatype JobState = Waiting | Delayed | Running | Failed | Finished

  /** A queue job; its key in the queue is the id of its send row. */
  datatype Job = Job(state: JobState, attempts: nat, campaign: CampaignId)

  /** How far the worker holding a running job has got. */
  datatype Phase = Claimed | Checked | Rendered | Mailed | Returning

  /** One mail handed to the mailer. */
  datatype Mail = Mail(send: SendId, campaign: CampaignId)

  datatype State = State(
    campaigns: map<CampaignId, Campaign>,
    nextCampaign: CampaignId,
    sends: map<SendId, Send>,
    nextSend: SendId,
    jobs: map<SendId, Job>,
    workers: map<SendId, Phase>,
    log: multiset<Mail>,
    lost: multiset<SendId>)

  datatype Employee = Employee(id: EmployeeId, domain: string)

  /** What the rest of the database and the process environment say at one moment. */
  datatype Env = Env(
    now: int,
    roster: seq<Employee>,
    verifiedDomains: set<string>,
    verifiedSenders: set<DomainId>,
    agreementSigned: bool,
    allowlistConfirmed: bool,
    trackingConfigured: bool)

  datatype Refusal = NotFound | WrongStatus(status: Status) | NotReady | NoRecipients | NoVerifiedRecipients

  const EMPTY: State := State(map[], 0, map[], 0, map[], map[], multiset{}, multiset{})

  // ---------- Reading the state ----------

  predicate HasStatus(s: State, c: CampaignId, status: Status) {
    c in s.campaigns && s.campaigns[c].status == status
  }

  /** The rows of a campaign whose stamp is not set. */
  function Unsent(s: State, c: CampaignId): set<SendId> {
    set id | id in s.sends && s.sends[id].campaign == c && !s.sends[id].sent
  }

  function Rows(s: State, c: CampaignId): set<SendId> {
    set id | id in s.sends && s.sends[id].campaign == c
  }

  predicate HasRow(sends: map<SendId, Send>, c: CampaignId, e: EmployeeId, sc: ScenarioId) {
    exists id :: id in sends && sends[id].campaign == c && sends[id].employee == e && sends[id].scenario == sc
  }

  /** Jobs that will still be run. */
  predicate Live(job: Job) {
    job.state == Waiting || job.state == Delayed || job.state == Running
  }

  // ---------- The queue ----------

  /** Adding an id that already has a job, in any state, does nothing. */
  function AddJobs(jobs: map<SendId, Job>, ids: set<SendId>, c: CampaignId): map<SendId, Job> {
    jobs + map id | id in ids && id !in jobs :: Job(Waiting, 0, c)
  }

  /** The ids among `ids` whose job can be removed: it exists and no worker holds it. */
  function Removable(jobs: map<SendId, Job>, ids: set<SendId>): set<SendId> {
    set id | id in ids && id in jobs && jobs[id].state != Running
  }

  // ---------- The campaign service ----------

  /** A new draft; a campaign without scenarios is refused. */
  function Create(s: State, c: Campaign): State {
    if c.scenarios == [] then s else
    s.(campaigns := s.campaigns[s.nextCampaign := c.(status := Draft, parent := None)],
       nextCampaign := s.nextCampaign + 1)
  }

  function Schedule(s: State, c: CampaignId, at: Option<int>): (State, Option<Refusal>) {
    if c !in s.campaigns then (s, Some(NotFound))
    else if s.campaigns[c].status != Draft then (s, Some(WrongStatus(s.campaigns[c].status)))
    else (s.(campaigns := s.campaigns[c := s.campaigns[c].(scheduledSendAt := at)]), None)
  }

  predicate Preflight(c: Campaign, env: Env) {
    && env.agreementSigned
    && |env.roster| > 0
    && |c.scenarios| > 0
    && c.sendingDomain.Some? && c.sendingDomain.value in env.verifiedSenders
    && env.trackingConfigured
    && env.allowlistConfirmed
  }

  /** The campaign's chosen employees, or the whole roster when none were chosen. */
  function Selected(roster: seq<Employee>, targets: set<EmployeeId>): seq<Employee> {
    if roster == [] then []
    else (if targets == {} || roster[0].id in targets then [roster[0]] else []) + Selected(roster[1..], targets)
  }

  function OnVerifiedDomain(employees: seq<Employee>, domains: set<string>): seq<Employee> {
    if employees == [] then []
    else (if employees[0].domain in domains then [employees[0]] else []) + OnVerifiedDomain(employees[1..], domains)
  }

  function Recipients(c: Campaign, env: Env): seq<Employee> {
    OnVerifiedDomain(Selected(env.roster, c.targets), env.verifiedDomains)
  }

  /** One pair per recipient and scenario, recipient by recipient. */
  function Pairs(employees: seq<Employee>, scenarios: seq<ScenarioId>): seq<(EmployeeId, ScenarioId)> {
    if employees == [] then []
    else seq(|scenarios|, i requires 0 <= i < |scenarios| => (employees[0].id, scenarios[i]))
         + Pairs(employees[1..], scenarios)
  }

  /** Inserts a row for every pair that has none yet, as createMany with skipDuplicates does. */
  function CreateMany(sends: map<SendId, Send>, next: SendId, c: CampaignId, pairs: seq<(EmployeeId, ScenarioId)>)
    : (map<SendId, Send>, SendId)
    decreases |pairs|
  {
    if pairs == [] then (sends, next)
    else if HasRow(sends, c, pairs[0].0, pairs[0].1) then CreateMany(sends, next, c, pairs[1..])
    else CreateMany(sends[next := Send(c, pairs[0].0, pairs[0].1, false)], next + 1, c, pairs[1..])
  }

  /** The next occurrence of a recurring campaign: it keeps neither the targets nor the sending domain. */
  function Clone(c: CampaignId, campaign: Campaign, now: int): Campaign {
    var days := if campaign.recurrenceDays.Some? then campaign.recurrenceDays.value else 0;
    Campaign(Draft, Some(now + days * MS_PER_DAY), campaign.sendWindowMinutes, campaign.recurrenceDays,
             Some(Root(c, campaign)), {}, None, campaign.scenarios)
  }

  function Root(c: CampaignId, campaign: Campaign): CampaignId {
    if campaign.parent.Some? then campaign.parent.value else c
  }

  predicate Recurs(campaign: Campaign) {
    campaign.recurrenceDays.Some? && campaign.recurrenceDays.value > 0
  }

  function LaunchRefusal(s: State, c: CampaignId, env: Env): Option<Refusal> {
    if c !in s.campaigns then Some(NotFound)
    else
      var campaign := s.campaigns[c];
      if campaign.status != Draft && campaign.status != Paused then Some(WrongStatus(campaign.status))
      else if !Preflight(campaign, env) then Some(NotReady)
      else if Selected(env.roster, campaign.targets) == [] then Some(NoRecipients)
      else if Recipients(campaign, env) == [] then Some(NoVerifiedRecipients)
      else None
  }

  /** The state after the rows exist, the status is active and the unsent rows are queued. */
  function Activate(s: State, c: CampaignId, env: Env): State
    requires c in s.campaigns
  {
    var campaign := s.campaigns[c];
    var (sends, next) := CreateMany(s.sends, s.nextSend, c, Pairs(Recipients(campaign, env), campaign.scenarios));
    var s1 := s.(sends := sends, nextSend := next, campaigns := s.campaigns[c := campaign.(status := Active)]);
    s1.(jobs := AddJobs(s1.jobs, Unsent(s1, c), c))
  }

  function ScheduleNext(s: State, c: CampaignId, campaign: Campaign, now: int): State {
    s.(campaigns := s.campaigns[s.nextCampaign := Clone(c, campaign, now)], nextCampaign := s.nextCampaign + 1)
  }

  function Launch(s: State, c: CampaignId, env: Env): (State, Result<nat, Refusal>) {
    var refusal := LaunchRefusal(s, c, env);
    if refusal.Some? then (s, Err(refusal.value))
    else
      var s1 := Activate(s, c, env);
      var s2 := if Recurs(s.campaigns[c]) then ScheduleNext(s1, c, s.campaigns[c], env.now) else s1;
      (s2, Ok(|Unsent(s1, c)|))
  }

  function SetStatus(s: State, c: CampaignId, status: Status): State
    requires c in s.campaigns
  {
    s.(campaigns := s.campaigns[c := s.campaigns[c].(status := status)])
  }

  function Pause(s: State, c: CampaignId): (State, Option<Refusal>) {
    if c !in s.campaigns then (s, Some(NotFound))
    else if s.campaigns[c].status != Active then (s, Some(WrongStatus(s.campaigns[c].status)))
    else (SetStatus(s, c, Paused), None)
  }

  function LaunchPending(s: State, c: CampaignId): (State, nat) {
    (s.(jobs := AddJobs(s.jobs, Unsent(s, c), c)), |Unsent(s, c)|)
  }

  function Resume(s: State, c: CampaignId): (State, Result<nat, Refusal>) {
    if c !in s.campaigns then (s, Err(NotFound))
    else if s.campaigns[c].status != Paused then (s, Err(WrongStatus(s.campaigns[c].status)))
    else
      var (s1, queued) := LaunchPending(SetStatus(s, c, Active), c);
      (s1, Ok(queued))
  }

  datatype KillReport = KillReport(removedJobs: nat, unsentRemaining: Option<nat>)

  function Kill(s: State, c: CampaignId): (State, Result<KillReport, Refusal>) {
    if c !in s.campaigns then (s, Err(NotFound))
    else if s.campaigns[c].status == Killed then (s, Ok(KillReport(0, None)))
    else
      var stale := Removable(s.jobs, Unsent(s, c));
      (SetStatus(s, c, Killed).(jobs := s.jobs - stale), Ok(KillReport(|stale|, Some(|Unsent(s, c)|))))
  }

  datatype RetryReport = RetryReport(requeued: nat, staleJobsCleared: nat)

  function RetryUnsent(s: State, c: CampaignId): (State, Result<RetryReport, Refusal>) {
    if c !in s.campaigns then (s, Err(NotFound))
    else if s.campaigns[c].status != Active then (s, Err(WrongStatus(s.campaigns[c].status)))
    else
      var pending := Unsent(s, c);
      var stale := Removable(s.jobs, pending);
      (s.(jobs := AddJobs(s.jobs - stale, pending, c)), Ok(RetryReport(|pending|, |stale|)))
  }

  // ---------- The worker ----------

  /** A worker picks up a job that is waiting, or whose delay has run out. */
  function Claim(s: State, id: SendId): State {
    if id in s.jobs && (s.jobs[id].state == Waiting || s.jobs[id].state == Delayed)
    then s.(jobs := s.jobs[id := s.jobs[id].(state := Running)], workers := s.workers[id := Claimed])
    else s
  }

  predicate InPhase(s: State, id: SendId, phase: Phase) {
    id in s.workers && s.workers[id] == phase
  }

  /** Reads the row with its campaign and decides whether it may go out. */
  function Read(s: State, id: SendId): State {
    if !InPhase(s, id, Claimed) then s
    else
      var go := id in s.sends && !s.sends[id].sent && HasStatus(s, s.sends[id].campaign, Active);
      s.(workers := s.workers[id := if go then Checked else Returning])
  }

  function Render(s: State, id: SendId, scenarioFound: bool): State {
    if InPhase(s, id, Checked)
    then s.(workers := s.workers[id := if scenarioFound then Rendered else Returning])
    else s
  }

  function SendMail(s: State, id: SendId): State {
    if InPhase(s, id, Rendered) && id in s.jobs
    then s.(workers := s.workers[id := Mailed], log := s.log + multiset{Mail(id, s.jobs[id].campaign)})
    else s
  }

  /** Sets the stamp; when the row is gone the update throws and the job fails. */
  function Stamp(s: State, id: SendId): State {
    if !InPhase(s, id, Mailed) then s
    else if id in s.sends
    then s.(sends := s.sends[id := s.sends[id].(sent := true)], workers := s.workers[id := Returning])
    else Throw(s, id)
  }

  /** The processor threw: after a mail the stamp is lost, and the job is retried until its attempts run out. */
  function Throw(s: State, id: SendId): State {
    if id in s.workers && id in s.jobs && s.workers[id] != Returning
    then
      var attempts := s.jobs[id].attempts + 1;
      var next := if attempts < MAX_ATTEMPTS then Delayed else Failed;
      s.(jobs := s.jobs[id := s.jobs[id].(state := next, attempts := attempts)],
         workers := s.workers - {id},
         lost := if s.workers[id] == Mailed then s.lost + multiset{id} else s.lost)
    else s
  }

  /** The processor returned, so the job is finished. */
  function Return(s: State, id: SendId): State {
    if InPhase(s, id, Returning) && id in s.jobs
    then s.(jobs := s.jobs[id := s.jobs[id].(state := Finished)], workers := s.workers - {id})
    else s
  }

  // ---------- Runs ----------

  datatype Action =
    // the campaign service
    | DoCreate(campaign: Campaign)
    | DoSchedule(c: CampaignId, at: Option<int>)
    | DoLaunch(c: CampaignId, env: Env)
    | DoPause(c: CampaignId)
    | DoResume(c: CampaignId)
    | DoKill(c: CampaignId)
    | DoRetry(c: CampaignId)
    // a worker
    | DoClaim(id: SendId)
    | DoRead(id: SendId)
    | DoRender(id: SendId, scenarioFound: bool)
    | DoMail(id: SendId)
    | DoStamp(id: SendId)
    | DoThrow(id: SendId)
    | DoReturn(id: SendId)
    // the environment: a sending domain is chosen, an old job is swept away, an employee's rows are deleted
    | SetDomain(c: CampaignId, domain: Option<DomainId>)
    | Evict(id: SendId)
    | RemoveEmployee(e: EmployeeId)

  function Apply(s: State, a: Action): State {
    match a
    case DoCreate(campaign) => Create(s, campaign)
    case DoSchedule(c, at) => Schedule(s, c, at).0
    case DoLaunch(c, env) => Launch(s, c, env).0
    case DoPause(c) => Pause(s, c).0
    case DoResume(c) => Resume(s, c).0
    case DoKill(c) => Kill(s, c).0
    case DoRetry(c) => RetryUnsent(s, c).0
    case DoClaim(id) => Claim(s, id)
    case DoRead(id) => Read(s, id)
    case DoRender(id, found) => Render(s, id, found)
    case DoMail(id) => SendMail(s, id)
    case DoStamp(id) => Stamp(s, id)
    case DoThrow(id) => Throw(s, id)
    case DoReturn(id) => Return(s, id)
    case SetDomain(c, domain) =>
      if c in s.campaigns then s.(campaigns := s.campaigns[c := s.campaigns[c].(sendingDomain := domain)]) else s
    case Evict(id) =>
      if id in s.jobs && (s.jobs[id].state == Failed || s.jobs[id].state == Finished)
      then s.(jobs := s.jobs - {id}) else s
    case RemoveEmployee(e) =>
      s.(sends := map id | id in s.sends && s.sends[id].employee != e :: s.sends[id])
  }

  function Run(s: State, actions: seq<Action>): State
    decreases |actions|
  {
    if actions == [] then s else Run(Apply(s, actions[0]), actions[1..])
  }

  lemma {:induction false} RunAppend(s: State, first: seq<Action>, rest: seq<Action>)
    ensures Run(s, first + rest) == Run(Run(s, first), rest)
    decreases |first|
  {
    if first == [] {
      assert first + rest == rest;
    } else {
      assert (first + rest)[1..] == first[1..] + rest;
      RunAppend(Apply(s, first[0]), first[1..], rest);
    }
  }
}
