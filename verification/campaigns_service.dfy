/** The campaign service and the scheduler over a mutable store, each method proved to be the protocol's step. */
module CampaignsService {
  import opened Wrappers
  import opened CampaignProtocol
  import opened CampaignInvariants
  import opened CampaignLaunch
  import opened CampaignRules

  /** The sequence lists the elements of the set, each once. */
  ghost predicate Lists(ids: seq<nat>, all: set<nat>) {
    && (forall id :: id in ids <==> id in all)
    && (forall i, j :: 0 <= i < j < |ids| ==> ids[i] != ids[j])
  }

  function Elements(ids: seq<nat>): set<nat> {
    set id | id in ids
  }

  lemma {:induction false} ListsCount(ids: seq<nat>, all: set<nat>)
    requires Lists(ids, all)
    ensures |ids| == |all| && Elements(ids) == all
  {
    if ids == [] {
      assert all == {};
    } else {
      var last := ids[|ids| - 1];
      var init := ids[..|ids| - 1];
      assert forall id :: id in ids <==> id in init || id == last;
      ListsCount(init, all - {last});
    }
  }

  /** One more id: its job goes too, if it can be removed. */
  lemma RemovableNext(jobs: map<SendId, Job>, ids: seq<SendId>, i: nat)
    requires i < |ids| && forall j, k :: 0 <= j < k < |ids| ==> ids[j] != ids[k]
    ensures ids[i] !in Removable(jobs, Elements(ids[..i]))
    ensures Removable(jobs, Elements(ids[..i + 1]))
            == Removable(jobs, Elements(ids[..i])) + if ids[i] in jobs && jobs[ids[i]].state != Running then {ids[i]}
                else {}
  {
    assert ids[i] !in ids[..i];
    assert Elements(ids[..i + 1]) == Elements(ids[..i]) + {ids[i]};
  }

  /** Of these ids, every removable job is gone and counted, and no other. */
  ghost predicate Cleared(was: map<SendId, Job>, jobs: map<SendId, Job>, ids: set<SendId>, removed: nat) {
    jobs == was - Removable(was, ids) && removed == |Removable(was, ids)|
  }

  lemma ClearedNext(was: map<SendId, Job>, jobs: map<SendId, Job>, ids: seq<SendId>, i: nat, removed: nat)
    requires i < |ids| && (forall j, k :: 0 <= j < k < |ids| ==> ids[j] != ids[k])
    requires Cleared(was, jobs, Elements(ids[..i]), removed)
    ensures if ids[i] in jobs && jobs[ids[i]].state != Running
            then Cleared(was, jobs - {ids[i]}, Elements(ids[..i + 1]), removed + 1)
            else Cleared(was, jobs, Elements(ids[..i + 1]), removed)
  {
    RemovableNext(was, ids, i);
    MinusOne(was, Removable(was, Elements(ids[..i])), ids[i]);
  }

  lemma MinusOne(was: map<SendId, Job>, gone: set<SendId>, id: SendId)
    requires id !in gone
    ensures was - gone - {id} == was - (gone + {id}) && |gone + {id}| == |gone| + 1
    ensures id in was - gone <==> id in was
    ensures id in was ==> (was - gone)[id] == was[id]
  {
  }

  /** The tables and the queue. */
  class Store {
    var campaigns: map<CampaignId, Campaign>
    var nextCampaign: CampaignId
    var sends: map<SendId, Send>
    var nextSend: SendId
    var jobs: map<SendId, Job>
    var workers: map<SendId, Phase>
    ghost var log: multiset<Mail>
    ghost var lost: multiset<SendId>

    ghost function Value(): (s: State)
      reads this
    {
      State(campaigns, nextCampaign, sends, nextSend, jobs, workers, log, lost)
    }

    constructor ()
      ensures Value() == EMPTY
    {
      campaigns, nextCampaign, sends, nextSend := map[], 0, map[], 0;
      jobs, workers, log, lost := map[], map[], multiset{}, multiset{};
    }

    /** The ids of a campaign's unsent rows, in some order. */
    method FindUnsent(c: CampaignId) returns (pending: seq<SendId>)
      ensures Lists(pending, Unsent(Value(), c))
    {
      pending := [];
      var rest := set id | id in sends && sends[id].campaign == c && !sends[id].sent;
      while rest != {}
        invariant forall id :: id in Unsent(Value(), c) <==> id in pending || id in rest
        invariant forall id :: id in pending ==> id !in rest
        invariant forall i, j :: 0 <= i < j < |pending| ==> pending[i] != pending[j]
        decreases rest
      {
        var id :| id in rest;
        pending := pending + [id];
        rest := rest - {id};
      }
    }

    /** Inserts the rows of the pairs that have none. */
    method CreateRows(c: CampaignId, pairs: seq<(EmployeeId, ScenarioId)>)
      modifies this`sends, this`nextSend
      ensures (sends, nextSend) == CreateMany(old(sends), old(nextSend), c, pairs)
    {
      for i := 0 to |pairs|
        invariant CreateMany(sends, nextSend, c, pairs[i..]) == CreateMany(old(sends), old(nextSend), c, pairs)
      {
        assert pairs[i..][0] == pairs[i] && pairs[i..][1..] == pairs[i + 1..];
        if !HasRow(sends, c, pairs[i].0, pairs[i].1) {
          sends := sends[nextSend := Send(c, pairs[i].0, pairs[i].1, false)];
          nextSend := nextSend + 1;
        }
      }
    }

    /** Adds a job for every id that has none. */
    method AddBulk(ids: seq<SendId>, c: CampaignId)
      modifies this`jobs
      ensures jobs == AddJobs(old(jobs), Elements(ids), c)
    {
      for i := 0 to |ids|
        invariant jobs == AddJobs(old(jobs), Elements(ids[..i]), c)
      {
        assert Elements(ids[..i + 1]) == Elements(ids[..i]) + {ids[i]};
        if ids[i] !in jobs {
          jobs := jobs[ids[i] := Job(Waiting, 0, c)];
        }
      }
      assert ids[..|ids|] == ids;
    }

    /** Looks up and removes the job of every id; a job that a worker holds cannot be removed. */
    method RemoveJobs(ids: seq<SendId>) returns (removed: nat)
      requires forall i, j :: 0 <= i < j < |ids| ==> ids[i] != ids[j]
      modifies this`jobs
      ensures jobs == old(jobs) - Removable(old(jobs), Elements(ids))
      ensures removed == |Removable(old(jobs), Elements(ids))|
    {
      removed := 0;
      ghost var was := jobs;
      assert Cleared(was, jobs, Elements(ids[..0]), 0);
      for i := 0 to |ids|
        invariant Cleared(was, jobs, Elements(ids[..i]), removed)
      {
        ClearedNext(was, jobs, ids, i, removed);
        if ids[i] in jobs && jobs[ids[i]].state != Running {
          jobs := jobs - {ids[i]};
          removed := removed + 1;
        }
      }
      assert ids[..|ids|] == ids;
    }

    method UpdateStatus(c: CampaignId, status: Status)
      requires c in campaigns
      modifies this`campaigns
      ensures campaigns == old(campaigns)[c := old(campaigns)[c].(status := status)]
    {
      campaigns := campaigns[c := campaigns[c].(status := status)];
    }
  }

  class Service {
    const store: Store

    constructor (store: Store)
      ensures this.store == store
    {
      this.store := store;
    }

    method Create(campaign: Campaign)
      modifies store
      ensures store.Value() == CampaignProtocol.Create(old(store.Value()), campaign)
    {
      if campaign.scenarios != [] {
        store.campaigns := store.campaigns[store.nextCampaign := campaign.(status := Draft, parent := None)];
        store.nextCampaign := store.nextCampaign + 1;
      }
    }

    method Schedule(c: CampaignId, at: Option<int>) returns (refusal: Option<Refusal>)
      modifies store
      ensures (store.Value(), refusal) == CampaignProtocol.Schedule(old(store.Value()), c, at)
    {
      if c !in store.campaigns { return Some(NotFound); }
      var campaign := store.campaigns[c];
      if campaign.status != Draft { return Some(WrongStatus(campaign.status)); }
      store.campaigns := store.campaigns[c := campaign.(scheduledSendAt := at)];
      return None;
    }

    method Launch(c: CampaignId, env: Env) returns (r: Result<nat, Refusal>)
      modifies store
      ensures (store.Value(), r) == CampaignProtocol.Launch(old(store.Value()), c, env)
    {
      if c !in store.campaigns { return Err(NotFound); }
      var campaign := store.campaigns[c];
      if campaign.status == Killed || campaign.status == Active || campaign.status == Completed {
        return Err(WrongStatus(campaign.status));
      }
      if !Preflight(campaign, env) { return Err(NotReady); }
      if Selected(env.roster, campaign.targets) == [] { return Err(NoRecipients); }
      var employees := Recipients(campaign, env);
      if employees == [] { return Err(NoVerifiedRecipients); }

      store.CreateRows(c, Pairs(employees, campaign.scenarios));
      var pending := store.FindUnsent(c);
      ListsCount(pending, Unsent(store.Value(), c));
      store.UpdateStatus(c, Active);
      store.AddBulk(pending, c);
      assert store.Value() == Activate(old(store.Value()), c, env);
      if Recurs(campaign) {
        ScheduleNextOccurrence(c, campaign, env.now);
      }
      return Ok(|pending|);
    }

    method ScheduleNextOccurrence(c: CampaignId, campaign: Campaign, now: int)
      modifies store
      ensures store.Value() == ScheduleNext(old(store.Value()), c, campaign, now)
    {
      var days := if campaign.recurrenceDays.Some? then campaign.recurrenceDays.value else 0;
      var root := if campaign.parent.Some? then campaign.parent.value else c;
      var clone := Campaign(Draft, Some(now + days * MS_PER_DAY), campaign.sendWindowMinutes, campaign.recurrenceDays,
                            Some(root), {}, None, campaign.scenarios);
      store.campaigns := store.campaigns[store.nextCampaign := clone];
      store.nextCampaign := store.nextCampaign + 1;
    }

    method Pause(c: CampaignId) returns (refusal: Option<Refusal>)
      modifies store
      ensures (store.Value(), refusal) == CampaignProtocol.Pause(old(store.Value()), c)
    {
      if c !in store.campaigns { return Some(NotFound); }
      if store.campaigns[c].status != Active { return Some(WrongStatus(store.campaigns[c].status)); }
      store.UpdateStatus(c, Paused);
      return None;
    }

    method Resume(c: CampaignId) returns (r: Result<nat, Refusal>)
      modifies store
      ensures (store.Value(), r) == CampaignProtocol.Resume(old(store.Value()), c)
    {
      if c !in store.campaigns { return Err(NotFound); }
      if store.campaigns[c].status != Paused { return Err(WrongStatus(store.campaigns[c].status)); }
      store.UpdateStatus(c, Active);
      var queued := LaunchPending(c);
      return Ok(queued);
    }

    method LaunchPending(c: CampaignId) returns (queued: nat)
      modifies store
      ensures (store.Value(), queued) == CampaignProtocol.LaunchPending(old(store.Value()), c)
    {
      var pending := store.FindUnsent(c);
      ListsCount(pending, Unsent(store.Value(), c));
      store.AddBulk(pending, c);
      queued := |pending|;
    }

    method Kill(c: CampaignId) returns (r: Result<KillReport, Refusal>)
      modifies store
      ensures (store.Value(), r) == CampaignProtocol.Kill(old(store.Value()), c)
    {
      if c !in store.campaigns { return Err(NotFound); }
      if store.campaigns[c].status == Killed { return Ok(KillReport(0, None)); }
      store.UpdateStatus(c, Killed);
      var unsent := store.FindUnsent(c);
      assert Unsent(store.Value(), c) == Unsent(old(store.Value()), c);
      ListsCount(unsent, Unsent(store.Value(), c));
      var removed := store.RemoveJobs(unsent);
      return Ok(KillReport(removed, Some(|unsent|)));
    }

    method RetryUnsent(c: CampaignId) returns (r: Result<RetryReport, Refusal>)
      modifies store
      ensures (store.Value(), r) == CampaignProtocol.RetryUnsent(old(store.Value()), c)
    {
      if c !in store.campaigns { return Err(NotFound); }
      if store.campaigns[c].status != Active { return Err(WrongStatus(store.campaigns[c].status)); }
      var pending := store.FindUnsent(c);
      ListsCount(pending, Unsent(store.Value(), c));
      var cleared := store.RemoveJobs(pending);
      store.AddBulk(pending, c);
      return Ok(RetryReport(|pending|, cleared));
    }
  }

  function Orders(due: seq<CampaignId>, envOf: CampaignId -> Env): seq<(CampaignId, Env)> {
    seq(|due|, i requires 0 <= i < |due| => (due[i], envOf(due[i])))
  }

  lemma ListsOrder(s: State, now: int, envOf: CampaignId -> Env, due: seq<CampaignId>, order: seq<(CampaignId, Env)>)
    requires Lists(due, Due(s, now)) && order == Orders(due, envOf)
    ensures ListsDue(s, now, envOf, order)
  {
    forall c ensures c in Due(s, now) <==> exists i :: 0 <= i < |order| && order[i].0 == c {
      if c in due {
        var i :| 0 <= i < |due| && due[i] == c;
        assert order[i].0 == c;
      }
    }
  }

  /** One tick of the scheduler: launch every due draft, going on after a refusal. */
  class SchedulerProcessor {
    const campaigns: Service

    constructor (campaigns: Service)
      ensures this.campaigns == campaigns
    {
      this.campaigns := campaigns;
    }

    method FindDue(now: int) returns (due: seq<CampaignId>)
      ensures Lists(due, Due(campaigns.store.Value(), now))
    {
      due := [];
      var rest := set c | c in campaigns.store.campaigns && campaigns.store.campaigns[c].status == Draft
                          && campaigns.store.campaigns[c].scheduledSendAt.Some?
                          && campaigns.store.campaigns[c].scheduledSendAt.value <= now;
      while rest != {}
        invariant forall c :: c in Due(campaigns.store.Value(), now) <==> c in due || c in rest
        invariant forall c :: c in due ==> c !in rest
        invariant forall i, j :: 0 <= i < j < |due| ==> due[i] != due[j]
        decreases rest
      {
        var c :| c in rest;
        due := due + [c];
        rest := rest - {c};
      }
    }

    /** `envOf` gives what a launch of each campaign will find. */
    method Process(now: int, envOf: CampaignId -> Env)
      returns (checked: nat, launched: nat, ghost order: seq<(CampaignId, Env)>)
      modifies campaigns.store
      ensures ListsDue(old(campaigns.store.Value()), now, envOf, order)
      ensures (campaigns.store.Value(), launched) == LaunchAll(old(campaigns.store.Value()), order)
      ensures checked == |DueDrafts(old(campaigns.store.Value()), now)|
      ensures Inv(old(campaigns.store.Value())) ==>
                && launched == |DueLaunchable(old(campaigns.store.Value()), now, envOf)|
                && TickedAll(old(campaigns.store.Value()), campaigns.store.Value(), now, envOf)
    {
      var due := FindDue(now);
      ghost var s := campaigns.store.Value();
      order := Orders(due, envOf);
      DueIs(s, now);
      ListsCount(due, Due(s, now));
      ListsOrder(s, now, envOf, due, order);
      if Inv(s) {
        TickCounts(s, now, envOf, order);
        TickAll(s, now, envOf, order);
      }
      launched := LaunchEach(due, envOf);
      checked := |due|;
    }

    method LaunchEach(due: seq<CampaignId>, envOf: CampaignId -> Env) returns (launched: nat)
      modifies campaigns.store
      ensures (campaigns.store.Value(), launched) == LaunchAll(old(campaigns.store.Value()), Orders(due, envOf))
    {
      ghost var s, order := campaigns.store.Value(), Orders(due, envOf);
      launched := 0;
      for i := 0 to |due|
        invariant LaunchAll(s, order).0 == LaunchAll(campaigns.store.Value(), order[i..]).0
        invariant LaunchAll(s, order).1 == launched + LaunchAll(campaigns.store.Value(), order[i..]).1
      {
        assert order[i..][0] == order[i] && order[i..][1..] == order[i + 1..];
        var r := campaigns.Launch(due[i], envOf(due[i]));
        if r.Ok? {
          launched := launched + 1;
        }
      }
    }
  }
}
