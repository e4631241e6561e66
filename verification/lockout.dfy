/** Account lockout: counting failures, locking, and how many guesses get through in a stretch of time. */
module Lockout {
  import opened Wrappers

  type AccountId = nat

  const MAX_FAILURES := 5
  const LOCK_MS := 15 * 60_000

  /** The lockout fields of an account row. */
  datatype Account = Account(failedLoginCount: nat, lockedUntil: Option<int>)

  type Accounts = map<AccountId, Account>

  predicate Locked(a: Account, now: int) {
    a.lockedUntil.Some? && a.lockedUntil.value > now
  }

  function Failed(a: Account, at: int): Account {
    var next := a.failedLoginCount + 1;
    Account(next, if next >= MAX_FAILURES then Some(at + LOCK_MS) else None)
  }

  const CLEARED: Account := Account(0, None)

  /** A sign-in call: when it looks at the locks, when it records a failure, what the address finds
      (a staff row, or else the client rows, at most ten), whose password the given one is, and which accounts are
      deactivated or have a second factor. */
  datatype Login = Login(
    now: int,
    recordedAt: int,
    staff: Option<AccountId>,
    candidates: seq<AccountId>,
    matches: set<AccountId>,
    deactivated: set<AccountId>,
    mfaEnabled: set<AccountId>)

  /** A second-factor call for an account with MFA set up. */
  datatype Mfa = Mfa(now: int, recordedAt: int, account: AccountId, codeOk: bool)

  datatype Event = SignIn(login: Login) | SecondFactor(mfa: Mfa)

  /** What the right secret leads to. */
  datatype Door = Token | MfaChallenge | Deactivated

  datatype Outcome = AccountLocked | InvalidCredentials | Accepted(account: AccountId, door: Door)

  /** Lookups find existing rows, each once, and a call takes no negative time. */
  ghost predicate Sound(accounts: Accounts, e: Event) {
    match e
    case SignIn(l) =>
      && l.now <= l.recordedAt
      && (l.staff.Some? ==> l.staff.value in accounts)
      && (forall i :: 0 <= i < |l.candidates| ==> l.candidates[i] in accounts)
      && (forall i, j :: 0 <= i < j < |l.candidates| ==> l.candidates[i] != l.candidates[j])
    case SecondFactor(m) => m.now <= m.recordedAt && m.account in accounts
  }

  // ---------- The calls as functions ----------

  function Usable(accounts: Accounts, candidates: seq<AccountId>, now: int): seq<AccountId> {
    if candidates == [] then []
    else if candidates[0] in accounts && !Locked(accounts[candidates[0]], now)
      then [candidates[0]] + Usable(accounts, candidates[1..], now)
    else Usable(accounts, candidates[1..], now)
  }

  /** The accounts compared until one matches. */
  function Compared(usable: seq<AccountId>, matches: set<AccountId>): seq<AccountId> {
    if usable == [] then []
    else if usable[0] in matches then [usable[0]]
    else [usable[0]] + Compared(usable[1..], matches)
  }

  function FirstMatch(usable: seq<AccountId>, matches: set<AccountId>): Option<AccountId> {
    if usable == [] then None
    else if usable[0] in matches then Some(usable[0])
    else FirstMatch(usable[1..], matches)
  }

  function FailAll(accounts: Accounts, ids: seq<AccountId>, at: int): Accounts {
    if ids == [] then accounts
    else
      var next := if ids[0] in accounts then accounts[ids[0] := Failed(accounts[ids[0]], at)] else accounts;
      FailAll(next, ids[1..], at)
  }

  /** The rows after the call, the accounts whose secret was compared, and what the caller is told. */
  datatype Effect = Effect(accounts: Accounts, compared: seq<AccountId>, outcome: Outcome)

  function DoorOf(l: Login, id: AccountId): Door {
    if id in l.deactivated then Deactivated else if id in l.mfaEnabled then MfaChallenge else Token
  }

  function Guess(accounts: Accounts, id: AccountId, now: int, recordedAt: int, ok: bool, door: Door): Effect
    requires id in accounts
  {
    if Locked(accounts[id], now) then Effect(accounts, [], AccountLocked)
    else if ok then Effect(accounts[id := CLEARED], [id], Accepted(id, door))
    else Effect(accounts[id := Failed(accounts[id], recordedAt)], [id], InvalidCredentials)
  }

  function LoginEffect(accounts: Accounts, l: Login): Effect {
    if l.staff.Some? && l.staff.value in accounts then
      var id := l.staff.value;
      Guess(accounts, id, l.now, l.recordedAt, id in l.matches, DoorOf(l, id))
    else
      var usable := Usable(accounts, l.candidates, l.now);
      var hit := FirstMatch(usable, l.matches);
      if hit.Some? then
        Effect(accounts[hit.value := CLEARED], Compared(usable, l.matches), Accepted(hit.value, DoorOf(l, hit.value)))
      else Effect(FailAll(accounts, usable, l.recordedAt), usable, InvalidCredentials)
  }

  function Apply(accounts: Accounts, e: Event): Effect {
    match e
    case SignIn(l) => LoginEffect(accounts, l)
    case SecondFactor(m) =>
      if m.account in accounts then Guess(accounts, m.account, m.now, m.recordedAt, m.codeOk, Token)
      else Effect(accounts, [], InvalidCredentials)
  }

  // ---------- The service ----------

  class AuthService {
    var accounts: Accounts

    constructor (accounts: Accounts)
      ensures this.accounts == accounts
    {
      this.accounts := accounts;
    }

    method RecordFailure(id: AccountId, current: nat, at: int)
      requires id in accounts && accounts[id].failedLoginCount == current
      modifies this
      ensures accounts == old(accounts)[id := Failed(old(accounts)[id], at)]
    {
      var next := current + 1;
      var locked := next >= MAX_FAILURES;
      accounts := accounts[id := Account(next, if locked then Some(at + LOCK_MS) else None)];
    }

    method ResetFailures(id: AccountId)
      modifies this
      ensures accounts == old(accounts)[id := CLEARED]
    {
      accounts := accounts[id := Account(0, None)];
    }

    method Login(l: Login) returns (outcome: Outcome, ghost compared: seq<AccountId>)
      requires Sound(accounts, SignIn(l))
      modifies this
      ensures Effect(accounts, compared, outcome) == LoginEffect(old(accounts), l)
    {
      compared := [];
      if l.staff.Some? {
        var id := l.staff.value;
        if Locked(accounts[id], l.now) { return AccountLocked, compared; }
        compared := [id];
        if id !in l.matches {
          RecordFailure(id, accounts[id].failedLoginCount, l.recordedAt);
          return InvalidCredentials, compared;
        }
        ResetFailures(id);
        if id in l.deactivated { return Accepted(id, Deactivated), compared; }
        if id in l.mfaEnabled { return Accepted(id, MfaChallenge), compared; }
        return Accepted(id, Token), compared;
      }
      var usable := FilterUsable(l.candidates, l.now);
      var found: Option<AccountId> := None;
      for i := 0 to |usable|
        invariant found == None
        invariant compared == usable[..i]
        invariant Compared(usable, l.matches) == usable[..i] + Compared(usable[i..], l.matches)
        invariant FirstMatch(usable, l.matches) == FirstMatch(usable[i..], l.matches)
      {
        assert usable[i..][0] == usable[i] && usable[i..][1..] == usable[i + 1..];
        compared := compared + [usable[i]];
        if usable[i] in l.matches {
          found := Some(usable[i]);
          break;
        }
      }
      if found.None? {
        FailEach(usable, l.recordedAt);
        return InvalidCredentials, usable;
      }
      ResetFailures(found.value);
      if found.value in l.deactivated { return Accepted(found.value, Deactivated), compared; }
      if found.value in l.mfaEnabled { return Accepted(found.value, MfaChallenge), compared; }
      return Accepted(found.value, Token), compared;
    }

    /** Locked accounts are dropped before any comparison. */
    method FilterUsable(candidates: seq<AccountId>, now: int) returns (usable: seq<AccountId>)
      requires forall i :: 0 <= i < |candidates| ==> candidates[i] in accounts
      ensures usable == Usable(accounts, candidates, now)
    {
      usable := [];
      for i := 0 to |candidates|
        invariant usable + Usable(accounts, candidates[i..], now) == Usable(accounts, candidates, now)
      {
        assert candidates[i..][0] == candidates[i] && candidates[i..][1..] == candidates[i + 1..];
        if !Locked(accounts[candidates[i]], now) {
          usable := usable + [candidates[i]];
        }
      }
    }

    method FailEach(ids: seq<AccountId>, at: int)
      modifies this
      ensures accounts == FailAll(old(accounts), ids, at)
    {
      for i := 0 to |ids|
        invariant FailAll(accounts, ids[i..], at) == FailAll(old(accounts), ids, at)
      {
        assert ids[i..][0] == ids[i] && ids[i..][1..] == ids[i + 1..];
        if ids[i] in accounts {
          RecordFailure(ids[i], accounts[ids[i]].failedLoginCount, at);
        }
      }
    }

    method VerifyMfa(m: Mfa) returns (outcome: Outcome, ghost compared: seq<AccountId>)
      requires Sound(accounts, SecondFactor(m))
      modifies this
      ensures Effect(accounts, compared, outcome)
              == Guess(old(accounts), m.account, m.now, m.recordedAt, m.codeOk, Token)
    {
      if Locked(accounts[m.account], m.now) { return AccountLocked, []; }
      if !m.codeOk {
        RecordFailure(m.account, accounts[m.account].failedLoginCount, m.recordedAt);
        return InvalidCredentials, [m.account];
      }
      ResetFailures(m.account);
      return Accepted(m.account, Token), [m.account];
    }
  }

  // ---------- One account ----------

  function Now(e: Event): int {
    match e case SignIn(l) => l.now case SecondFactor(m) => m.now
  }

  function RecordedAt(e: Event): int {
    match e case SignIn(l) => l.recordedAt case SecondFactor(m) => m.recordedAt
  }

  /** The call has no correct password and no correct code. */
  predicate AllWrong(e: Event) {
    match e case SignIn(l) => l.matches == {} case SecondFactor(m) => !m.codeOk
  }

  lemma {:induction false} UsableExact(accounts: Accounts, candidates: seq<AccountId>, now: int, id: AccountId)
    requires forall i, j :: 0 <= i < j < |candidates| ==> candidates[i] != candidates[j]
    ensures id in Usable(accounts, candidates, now)
        <==> id in candidates && id in accounts && !Locked(accounts[id], now)
    ensures forall i, j :: 0 <= i < j < |Usable(accounts, candidates, now)| ==>
        Usable(accounts, candidates, now)[i] != Usable(accounts, candidates, now)[j]
    decreases |candidates|
  {
    if candidates != [] {
      UsableExact(accounts, candidates[1..], now, id);
      UsableExact(accounts, candidates[1..], now, candidates[0]);
      assert candidates[0] !in candidates[1..];
    }
  }

  lemma {:induction false} FailAllExact(accounts: Accounts, ids: seq<AccountId>, at: int, id: AccountId)
    requires forall i, j :: 0 <= i < j < |ids| ==> ids[i] != ids[j]
    requires id in accounts
    ensures FailAll(accounts, ids, at).Keys == accounts.Keys
    ensures FailAll(accounts, ids, at)[id] == if id in ids then Failed(accounts[id], at) else accounts[id]
    decreases |ids|
  {
    if ids != [] {
      var next := if ids[0] in accounts then accounts[ids[0] := Failed(accounts[ids[0]], at)] else accounts;
      FailAllExact(next, ids[1..], at, id);
      assert id in ids <==> id == ids[0] || id in ids[1..];
      assert ids[0] !in ids[1..];
    }
  }

  lemma {:induction false} NoMatch(usable: seq<AccountId>)
    ensures FirstMatch(usable, {}) == None
    decreases |usable|
  {
    if usable != [] { NoMatch(usable[1..]); }
  }

  /** The times the account's secret is compared in a call. */
  function Comparisons(compared: seq<AccountId>, id: AccountId): nat {
    if compared == [] then 0 else Comparisons(compared[1..], id) + if compared[0] == id then 1 else 0
  }

  lemma {:induction false} ComparisonsDistinct(ids: seq<AccountId>, id: AccountId)
    requires forall i, j :: 0 <= i < j < |ids| ==> ids[i] != ids[j]
    ensures Comparisons(ids, id) == if id in ids then 1 else 0
    decreases |ids|
  {
    if ids != [] {
      ComparisonsDistinct(ids[1..], id);
      assert ids[0] !in ids[1..];
    }
  }

  /** The call looks at this account: the staff row of the address, or else one of its client rows. */
  predicate Reaches(e: Event, id: AccountId) {
    match e
    case SignIn(l) => if l.staff.Some? then id == l.staff.value else id in l.candidates
    case SecondFactor(m) => id == m.account
  }

  /** A call with nothing right in it compares the secret of every unlocked account it reaches exactly once, and
      records the failure; every other account is not compared and stays as before. */
  lemma WrongCall(accounts: Accounts, e: Event, id: AccountId)
    requires Sound(accounts, e) && AllWrong(e) && id in accounts
    ensures
      var effect := Apply(accounts, e);
      effect.accounts.Keys == accounts.Keys &&
      if Reaches(e, id) && !Locked(accounts[id], Now(e)) then
        Comparisons(effect.compared, id) == 1 && effect.accounts[id] == Failed(accounts[id], RecordedAt(e))
      else Comparisons(effect.compared, id) == 0 && effect.accounts[id] == accounts[id]
  {
    assert Comparisons([], id) == 0;
    match e
    case SignIn(l) =>
      if l.staff.None? {
        var usable := Usable(accounts, l.candidates, l.now);
        UsableExact(accounts, l.candidates, l.now, id);
        NoMatch(usable);
        FailAllExact(accounts, usable, l.recordedAt, id);
        ComparisonsDistinct(usable, id);
      } else {
        SingleComparison(l.staff.value, id);
      }
    case SecondFactor(m) => SingleComparison(m.account, id);
  }

  lemma SingleComparison(a: AccountId, id: AccountId)
    ensures Comparisons([a], id) == if a == id then 1 else 0
  {
    assert [a][1..] == [];
  }

  // ---------- Who gets in ----------

  /** The password, or the code, is the account's own. */
  predicate Right(e: Event, id: AccountId) {
    match e case SignIn(l) => id in l.matches case SecondFactor(m) => m.codeOk
  }

  ghost predicate Welcome(accounts: Accounts, e: Event, id: AccountId) {
    && Reaches(e, id) && id in accounts && Right(e, id)
    && (accounts[id].lockedUntil.None? || accounts[id].lockedUntil.value <= Now(e))
  }

  lemma {:induction false} FirstMatchExact(usable: seq<AccountId>, matches: set<AccountId>)
    ensures FirstMatch(usable, matches).Some? <==> exists id :: id in usable && id in matches
    ensures FirstMatch(usable, matches).Some?
        ==> FirstMatch(usable, matches).value in usable && FirstMatch(usable, matches).value in matches
    decreases |usable|
  {
    if usable != [] {
      FirstMatchExact(usable[1..], matches);
      assert forall id :: id in usable <==> id == usable[0] || id in usable[1..];
    }
  }

  ghost predicate NoneBefore(accounts: Accounts, candidates: seq<AccountId>, n: nat, matches: set<AccountId>, now: int)
    requires n <= |candidates|
  {
    forall j :: 0 <= j < n ==>
      !(candidates[j] in accounts && candidates[j] in matches && !Locked(accounts[candidates[j]], now))
  }

  lemma {:induction false} FirstInOrder(accounts: Accounts, candidates: seq<AccountId>, matches: set<AccountId>,
      now: int) returns (i: nat)
    requires FirstMatch(Usable(accounts, candidates, now), matches).Some?
    ensures i < |candidates| && candidates[i] == FirstMatch(Usable(accounts, candidates, now), matches).value
    ensures NoneBefore(accounts, candidates, i, matches, now)
    ensures Compared(Usable(accounts, candidates, now), matches) == Usable(accounts, candidates[..i + 1], now)
    decreases |candidates|
  {
    var c := candidates[0];
    if c in accounts && !Locked(accounts[c], now) && c in matches {
      i := 0;
      assert candidates[..1] == [c] && [c][1..] == [];
    } else {
      var rest := Usable(accounts, candidates[1..], now);
      if c in accounts && !Locked(accounts[c], now) { assert ([c] + rest)[1..] == rest; }
      i := FirstInOrder(accounts, candidates[1..], matches, now);
      i := i + 1;
      assert candidates[..i + 1][0] == c && candidates[..i + 1][1..] == candidates[1..][..i];
      forall j | 0 <= j < i
        ensures !(candidates[j] in accounts && candidates[j] in matches && !Locked(accounts[candidates[j]], now))
      {
        assert j > 0 ==> candidates[j] == candidates[1..][j - 1];
      }
    }
  }

  /** A call finds a secret right exactly when an account it reaches is unlocked and the secret is that account's own;
      then it clears that account's counter and lock, and changes no other account. The right code gives a token. The
      right password tells a deactivated account that it is one, second factor or not; an active account it leads to
      its second factor if it has one, and else to a token. */
  lemma AcceptedIffRight(accounts: Accounts, e: Event)
    requires Sound(accounts, e)
    ensures
      var effect := Apply(accounts, e);
      && (effect.outcome.Accepted? <==> exists id :: Welcome(accounts, e, id))
      && (effect.outcome.Accepted? ==>
            && Welcome(accounts, e, effect.outcome.account)
            && effect.accounts == accounts[effect.outcome.account := Account(0, None)]
            && (effect.outcome.door == Deactivated <==> e.SignIn? && effect.outcome.account in e.login.deactivated)
            && (effect.outcome.door == MfaChallenge <==>
                  && e.SignIn? && effect.outcome.account !in e.login.deactivated
                  && effect.outcome.account in e.login.mfaEnabled))
  {
    if e.SignIn? && e.login.staff.None? {
      var l := e.login;
      var usable := Usable(accounts, l.candidates, l.now);
      forall id ensures id in usable && id in l.matches <==> Welcome(accounts, e, id) {
        UsableExact(accounts, l.candidates, l.now, id);
      }
      FirstMatchExact(usable, l.matches);
    } else {
      var id := if e.SignIn? then e.login.staff.value else e.mfa.account;
      assert Welcome(accounts, e, id) <==> Right(e, id) && !Locked(accounts[id], Now(e));
    }
  }

  /** Among several client rows the first welcome one is let in. A call that fails says that the account is locked
      exactly when it names one account, a staff row or the owner of the code, and that account is locked. */
  lemma WhoIsTold(accounts: Accounts, e: Event)
    requires Sound(accounts, e)
    ensures
      var outcome := Apply(accounts, e).outcome;
      && (outcome.Accepted? && e.SignIn? && e.login.staff.None? ==>
            exists i: nat :: i < |e.login.candidates| && e.login.candidates[i] == outcome.account
              && forall j :: 0 <= j < i ==> !Welcome(accounts, e, e.login.candidates[j]))
      && (outcome == AccountLocked <==>
            exists id :: id in accounts && Locked(accounts[id], Now(e))
              && (if e.SignIn? then e.login.staff == Some(id) else e.mfa.account == id))
  {
    var outcome := Apply(accounts, e).outcome;
    if e.SignIn? && e.login.staff.None? {
      if outcome.Accepted? {
        var i := FirstInOrder(accounts, e.login.candidates, e.login.matches, e.login.now);
      }
    } else {
      var id := if e.SignIn? then e.login.staff.value else e.mfa.account;
      assert outcome == AccountLocked <==> Locked(accounts[id], Now(e));
    }
  }

  ghost predicate ComesAfter(candidates: seq<AccountId>, id: AccountId, first: AccountId) {
    exists i, j :: 0 <= i < j < |candidates| && candidates[i] == first && candidates[j] == id
  }

  /** The secrets compared in a call are those of the unlocked accounts it reaches, up to the first right one. */
  lemma WhoIsCompared(accounts: Accounts, e: Event, id: AccountId)
    requires Sound(accounts, e)
    ensures
      var (compared, outcome) := (Apply(accounts, e).compared, Apply(accounts, e).outcome);
      id in compared <==>
        && Reaches(e, id) && id in accounts
        && (accounts[id].lockedUntil.None? || accounts[id].lockedUntil.value <= Now(e))
        && (outcome.Accepted? && e.SignIn? && e.login.staff.None? ==>
              !ComesAfter(e.login.candidates, id, outcome.account))
  {
    if e.SignIn? && e.login.staff.None? {
      var l := e.login;
      UsableExact(accounts, l.candidates, l.now, id);
      if Apply(accounts, e).outcome.Accepted? {
        var i := FirstInOrder(accounts, l.candidates, l.matches, l.now);
        UsableExact(accounts, l.candidates[..i + 1], l.now, id);
        UpTo(l.candidates, i, id);
      }
    }
  }

  lemma UpTo(candidates: seq<AccountId>, i: nat, id: AccountId)
    requires forall j, k :: 0 <= j < k < |candidates| ==> candidates[j] != candidates[k]
    requires i < |candidates|
    ensures id in candidates[..i + 1] <==> id in candidates && !ComesAfter(candidates, id, candidates[i])
  {
    if j :| 0 <= j < |candidates| && candidates[j] == id {
      assert j <= i ==> candidates[..i + 1][j] == id;
    }
  }

  lemma {:induction false} NeverCompared(ids: seq<AccountId>, matches: set<AccountId>, id: AccountId)
    requires id !in ids
    ensures Comparisons(ids, id) == 0 && Comparisons(Compared(ids, matches), id) == 0
    decreases |ids|
  {
    if ids != [] {
      NeverCompared(ids[1..], matches, id);
      SingleComparison(ids[0], id);
      assert ([ids[0]] + Compared(ids[1..], matches))[1..] == Compared(ids[1..], matches);
    }
  }

  /** A locked account is no oracle: whatever secret a call carries, right or wrong, the account's own is not
      compared, the account does not get in, and its row stays as it is. */
  lemma LockedIsShut(accounts: Accounts, e: Event, id: AccountId)
    requires Sound(accounts, e) && id in accounts && Locked(accounts[id], Now(e))
    ensures
      var effect := Apply(accounts, e);
      && Comparisons(effect.compared, id) == 0 && !(effect.outcome.Accepted? && effect.outcome.account == id)
      && id in effect.accounts && effect.accounts[id] == accounts[id]
  {
    AcceptedIffRight(accounts, e);
    if e.SignIn? && e.login.staff.None? {
      var l := e.login;
      var usable := Usable(accounts, l.candidates, l.now);
      UsableExact(accounts, l.candidates, l.now, id);
      NeverCompared(usable, l.matches, id);
      FailAllExact(accounts, usable, l.recordedAt, id);
    } else {
      NeverCompared([], {}, id);
      SingleComparison(if e.SignIn? then e.login.staff.value else e.mfa.account, id);
    }
  }

  // ---------- The bound ----------

  /** A run of calls with nothing right in them, one after the other. */
  ghost predicate WrongRun(accounts: Accounts, events: seq<Event>, from: int)
    decreases |events|
  {
    events == [] ||
    (Sound(accounts, events[0]) && AllWrong(events[0]) && from <= Now(events[0])
     && WrongRun(Apply(accounts, events[0]).accounts, events[1..], RecordedAt(events[0])))
  }

  function After(accounts: Accounts, events: seq<Event>): Accounts
    decreases |events|
  {
    if events == [] then accounts else After(Apply(accounts, events[0]).accounts, events[1..])
  }

  /** How often the account's secret is compared in a run, and when the last failure of it is recorded. */
  function TimesCompared(accounts: Accounts, events: seq<Event>, id: AccountId): nat
    decreases |events|
  {
    if events == [] then 0
    else
      var effect := Apply(accounts, events[0]);
      Comparisons(effect.compared, id) + TimesCompared(effect.accounts, events[1..], id)
  }

  function LastFailure(accounts: Accounts, events: seq<Event>, id: AccountId): int
    requires TimesCompared(accounts, events, id) > 0
    decreases |events|
  {
    var next := Apply(accounts, events[0]).accounts;
    if TimesCompared(next, events[1..], id) > 0 then LastFailure(next, events[1..], id) else RecordedAt(events[0])
  }

  /** What a run of wrong passwords and wrong codes leaves: the count has gone up by exactly the comparisons,
      and from five on the account is locked until 15 minutes after the last recorded failure. */
  lemma {:induction false} FailuresCounted(accounts: Accounts, events: seq<Event>, from: int, id: AccountId)
    requires WrongRun(accounts, events, from) && id in accounts
    ensures
      var (n, after) := (TimesCompared(accounts, events, id), After(accounts, events));
      && id in after
      && if n == 0 then after[id] == accounts[id]
         else
           var count := accounts[id].failedLoginCount + n;
           after[id] == Account(count, if count < 5 then None else Some(LastFailure(accounts, events, id) + 900_000))
    decreases |events|
  {
    if events != [] {
      WrongCall(accounts, events[0], id);
      FailuresCounted(Apply(accounts, events[0]).accounts, events[1..], RecordedAt(events[0]), id);
    }
  }

  /** Comparisons of the account's secret made no later than `until`. */
  function ComparedBy(accounts: Accounts, events: seq<Event>, id: AccountId, until: int): nat
    decreases |events|
  {
    if events == [] then 0
    else
      (if Now(events[0]) <= until then Comparisons(Apply(accounts, events[0]).compared, id) else 0)
      + ComparedBy(Apply(accounts, events[0]).accounts, events[1..], id, until)
  }

  /** How many comparisons an account in this state allows from `from` to `until`: what is left before the
      next lock, and one for each further lock period. */
  function Allowance(a: Account, from: int, until: int): nat {
    var start := if Locked(a, from) then a.lockedUntil.value else from;
    var left := if a.failedLoginCount + 1 >= MAX_FAILURES then 1 else MAX_FAILURES - a.failedLoginCount;
    if start > until then 0 else left + (until - start) / LOCK_MS
  }

  lemma AllowanceLater(a: Account, from: int, later: int, until: int)
    requires from <= later
    ensures Allowance(a, later, until) <= Allowance(a, from, until)
  {
    var s0 := if Locked(a, from) then a.lockedUntil.value else from;
    var s1 := if Locked(a, later) then a.lockedUntil.value else later;
    assert s0 <= s1;
    DivMonotone(until - s1, until - s0);
  }

  lemma DivMonotone(x: int, y: int)
    requires x <= y
    ensures x / LOCK_MS <= y / LOCK_MS
  {
  }

  lemma AllowanceSpent(a: Account, now: int, recordedAt: int, until: int)
    requires !Locked(a, now) && now <= recordedAt && now <= until
    ensures 1 + Allowance(Failed(a, recordedAt), recordedAt, until) <= Allowance(a, now, until)
  {
    DivMonotone(until - recordedAt, until - now);
    assert (until - (recordedAt + LOCK_MS)) / LOCK_MS == (until - recordedAt) / LOCK_MS - 1;
  }

  lemma {:induction false} RunWithinAllowance(accounts: Accounts, events: seq<Event>, from: int, id: AccountId,
      until: int)
    requires WrongRun(accounts, events, from) && id in accounts
    ensures ComparedBy(accounts, events, id, until) <= Allowance(accounts[id], from, until)
    decreases |events|
  {
    if events != [] {
      var e := events[0];
      var effect := Apply(accounts, e);
      WrongCall(accounts, e, id);
      RecordedLater(accounts, e);
      RunWithinAllowance(effect.accounts, events[1..], RecordedAt(e), id, until);
      AllowanceLater(accounts[id], from, Now(e), until);
      AllowanceLater(accounts[id], Now(e), RecordedAt(e), until);
      if Comparisons(effect.compared, id) == 1 && Now(e) <= until {
        AllowanceSpent(accounts[id], Now(e), RecordedAt(e), until);
      } else if Comparisons(effect.compared, id) == 1 {
        assert Allowance(effect.accounts[id], RecordedAt(e), until) == 0;
      }
    }
  }

  lemma RecordedLater(accounts: Accounts, e: Event)
    requires Sound(accounts, e)
    ensures Now(e) <= RecordedAt(e)
  {
  }

  /**
   From any state of an account, in any run of sign-ins and second factors with nothing right in it, the
   passwords and codes compared for that account within `length` milliseconds number at most
   5 + length / 900000; once it has failed four times or more, at most 1 + length / 900000.
   */
  lemma LockoutBound(accounts: Accounts, events: seq<Event>, from: int, id: AccountId, length: nat)
    requires WrongRun(accounts, events, from) && id in accounts
    ensures ComparedBy(accounts, events, id, from + length) <= 5 + length / 900_000
    ensures accounts[id].failedLoginCount >= 4
        ==> ComparedBy(accounts, events, id, from + length) <= 1 + length / 900_000
  {
    RunWithinAllowance(accounts, events, from, id, from + length);
    var start := if Locked(accounts[id], from) then accounts[id].lockedUntil.value else from;
    DivMonotone(from + length - start, length);
  }
}
