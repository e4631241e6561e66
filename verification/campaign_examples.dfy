/** Short runs that reach the exceptions of the campaign theorems. */
module CampaignExamples {
  import opened Wrappers
  import opened CampaignProtocol
  import opened CampaignInvariants
  import opened CampaignDrain
  import opened CampaignLaunch

  // ---------- Two reachable states from which rows stay behind ----------

  const DEMO: Campaign := Campaign(Draft, None, 0, None, None, {}, Some(0), [0])
  const DEMO_ENV: Env := Env(0, [Employee(0, "d")], {"d"}, {0}, true, true, true)

  function DemoState(status: Status, job: JobState, workers: map<SendId, Phase>): State {
    State(map[0 := DEMO.(status := status)], 1, map[0 := Send(0, 0, 0, false)], 1,
          map[0 := Job(job, 0, 0)], workers, multiset{}, multiset{})
  }

  lemma RunThen(actions: seq<Action>, a: Action, s: State, s': State)
    requires Run(EMPTY, actions) == s && Apply(s, a) == s'
    ensures Run(EMPTY, actions + [a]) == s'
  {
    RunAppend(EMPTY, actions, [a]);
    assert [a][1..] == [];
  }

  lemma LaunchDemo() returns (run: seq<Action>)
    ensures Run(EMPTY, run) == DemoState(Active, Waiting, map[])
  {
    var drafted := EMPTY.(campaigns := map[0 := DEMO], nextCampaign := 1);
    RunThen([], DoCreate(DEMO), EMPTY, drafted);
    LaunchStep(drafted);
    RunThen([] + [DoCreate(DEMO)], DoLaunch(0, DEMO_ENV), drafted, DemoState(Active, Waiting, map[]));
    run := [] + [DoCreate(DEMO)] + [DoLaunch(0, DEMO_ENV)];
  }

  lemma LaunchStep(s: State)
    requires s == EMPTY.(campaigns := map[0 := DEMO], nextCampaign := 1)
    ensures Launch(s, 0, DEMO_ENV).0 == DemoState(Active, Waiting, map[])
  {
    var roster := DEMO_ENV.roster;
    assert Selected(roster, {}) == roster by { assert Selected([], {}) == []; }
    assert OnVerifiedDomain(roster, {"d"}) == roster by { assert OnVerifiedDomain([], {"d"}) == []; }
    assert Pairs(roster, [0]) == [(0, 0)] by { assert Pairs([], [0]) == []; }
    var sends: map<SendId, Send> := map[0 := Send(0, 0, 0, false)];
    assert CreateMany(map[], 0, 0, [(0, 0)]) == (sends, 1) by { assert CreateMany(sends, 1, 0, []) == (sends, 1); }
    var s1 := s.(sends := sends, nextSend := 1, campaigns := s.campaigns[0 := DEMO.(status := Active)]);
    assert Unsent(s1, 0) == {0};
    assert AddJobs(map[], {0}, 0) == map[0 := Job(Waiting, 0, 0)];
    assert Activate(s, 0, DEMO_ENV) == DemoState(Active, Waiting, map[]);
  }

  /** A launched campaign is paused while a worker holds its only job; the worker reads the pause and gives the row
      up. */
  lemma PausedRun() returns (run: seq<Action>)
    ensures Run(EMPTY, run) == DemoState(Paused, Running, map[0 := Returning])
  {
    DemoSteps();
    run := LaunchDemo();
    RunThen(run, DoPause(0), DemoState(Active, Waiting, map[]), DemoState(Paused, Waiting, map[]));
    run := run + [DoPause(0)];
    RunThen(run, DoClaim(0), DemoState(Paused, Waiting, map[]), DemoState(Paused, Running, map[0 := Claimed]));
    run := run + [DoClaim(0)];
    RunThen(run, DoRead(0), DemoState(Paused, Running, map[0 := Claimed]),
        DemoState(Paused, Running, map[0 := Returning]));
    run := run + [DoRead(0)];
  }

  lemma DemoSteps()
    ensures Pause(DemoState(Active, Waiting, map[]), 0).0 == DemoState(Paused, Waiting, map[])
    ensures Claim(DemoState(Paused, Waiting, map[]), 0) == DemoState(Paused, Running, map[0 := Claimed])
    ensures Read(DemoState(Paused, Running, map[0 := Claimed]), 0) == DemoState(Paused, Running, map[0 := Returning])
    ensures Return(DemoState(Paused, Running, map[0 := Returning]), 0) == DemoState(Paused, Finished, map[])
    ensures Resume(DemoState(Paused, Running, map[0 := Returning]), 0).0
        == DemoState(Active, Running, map[0 := Returning])
  {
  }

  lemma LeftoverDemo()
    ensures Leftover(DemoState(Paused, Finished, map[]), 0)
    ensures GivenUp(DemoState(Active, Running, map[0 := Returning]), 0)
  {
    var s := DemoState(Paused, Finished, map[]);
    assert 0 in Unsent(s, 0) && 0 in s.jobs && !Live(s.jobs[0]);
    var t := DemoState(Active, Running, map[0 := Returning]);
    assert 0 in Unsent(t, 0) && InPhase(t, 0, Returning);
  }

  /** Whatever the workers do without failing, the row is never sent. */
  ghost predicate StaysUnsent(s: State, c: CampaignId, id: SendId) {
    forall after :: OkRun(s, after) ==> id in Unsent(Run(s, after), c)
  }

  lemma StuckStays(s: State, c: CampaignId, id: SendId)
    requires Inv(s) && HasStatus(s, c, Active) && id in Unsent(s, c) && !Going(s, id)
    ensures StaysUnsent(s, c, id)
  {
    forall after | OkRun(s, after) ensures id in Unsent(Run(s, after), c) {
      OkRunKeeps(s, after, c, id);
    }
  }

  /** Both exceptions happen. Once the worker returns, the pause leaves a finished job; resume does not replace it,
      and the workers never send the row... */
  lemma PauseLeavesJob() returns (run: seq<Action>)
    ensures var s := Run(EMPTY, run); HasStatus(s, 0, Paused) && Leftover(s, 0) && StaysUnsent(Resume(s, 0).0, 0, 0)
  {
    run := PausedRun();
    var s := DemoState(Paused, Finished, map[]);
    DemoSteps();
    RunThen(run, DoReturn(0), DemoState(Paused, Running, map[0 := Returning]), s);
    run := run + [DoReturn(0)];
    LeftoverDemo();
    RunKeepsInv(EMPTY, run);
    ResumeKeepsInv(s, 0);
    ResumedStuck(s);
    StuckStays(Resume(s, 0).0, 0, 0);
  }

  lemma ResumedStuck(s: State)
    requires s == DemoState(Paused, Finished, map[])
    ensures var s' := Resume(s, 0).0; HasStatus(s', 0, Active) && 0 in Unsent(s', 0) && !Going(s', 0)
  {
    assert Resume(s, 0).0.sends == s.sends && 0 in s.jobs;
  }

  /** ...and if resume and retryUnsent come before the worker returns, retryUnsent does not requeue the row either. */
  lemma RetryMissesGivenUpRow() returns (run: seq<Action>)
    ensures
      var s := Run(EMPTY, run);
      HasStatus(s, 0, Active) && GivenUp(s, 0) && StaysUnsent(RetryUnsent(s, 0).0, 0, 0)
  {
    run := PausedRun();
    var s := DemoState(Active, Running, map[0 := Returning]);
    DemoSteps();
    RunThen(run, DoResume(0), DemoState(Paused, Running, map[0 := Returning]), s);
    run := run + [DoResume(0)];
    LeftoverDemo();
    RunKeepsInv(EMPTY, run);
    RetryKeepsInv(s, 0);
    RetriedStuck(s);
    StuckStays(RetryUnsent(s, 0).0, 0, 0);
  }

  lemma RetriedStuck(s: State)
    requires s == DemoState(Active, Running, map[0 := Returning])
    ensures var s' := RetryUnsent(s, 0).0; HasStatus(s', 0, Active) && 0 in Unsent(s', 0) && !Going(s', 0)
  {
    var s' := RetryUnsent(s, 0).0;
    assert s'.sends == s.sends && s'.workers == s.workers && s'.campaigns == s.campaigns;
  }

  // ---------- An occurrence that comes due and is refused ----------

  /** A campaign that recurs every day is launched at time 0; a day later the tick finds its next occurrence due,
      and refuses it. */
  lemma OccurrenceComesDue() returns (run: seq<Action>)
    ensures
      var (s, later) := (Run(EMPTY, run), DEMO_ENV.(now := MS_PER_DAY));
      1 in Due(s, MS_PER_DAY) && Launch(s, 1, later).1 == Err(NotReady) && LaunchAll(s, [(1, later)]) == (s, 0)
  {
    var daily := DEMO.(recurrenceDays := Some(1));
    var s := Create(EMPTY, daily);
    run := [DoCreate(daily)];
    RunThen([], DoCreate(daily), EMPTY, s);
    assert [] + [DoCreate(daily)] == run;
    DailyLaunches(s, daily);
    RunKeepsInv(EMPTY, run);
    OccurrenceRefusedWhenDue(s, 0, DEMO_ENV, DEMO_ENV.(now := MS_PER_DAY));
    RunThen(run, DoLaunch(0, DEMO_ENV), s, Launch(s, 0, DEMO_ENV).0);
    run := run + [DoLaunch(0, DEMO_ENV)];
  }

  lemma DailyLaunches(s: State, daily: Campaign)
    requires daily == DEMO.(recurrenceDays := Some(1)) && s == Create(EMPTY, daily)
    ensures s.nextCampaign == 1 && 0 in s.campaigns && s.campaigns[0] == daily && Recurs(daily)
    ensures Launch(s, 0, DEMO_ENV).1.Ok?
  {
    assert Employee(0, "d") in DEMO_ENV.roster;
    assert IsRecipient(Employee(0, "d"), s.campaigns[0], DEMO_ENV);
    LaunchAllowedIff(s, 0, DEMO_ENV);
  }
}
