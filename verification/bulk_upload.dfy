/** Uploading a roster file under a licence's seat limit. */
module BulkUpload {
  import opened Wrappers
  import opened Text

  datatype EmployeeRow = EmployeeRow(email: Option<string>, name: Option<string>, department: Option<string>)

  datatype Profile = Profile(name: string, department: Option<string>)

  /** A tenant's employees by e-mail address, which is unique within the tenant. */
  type Roster = map<string, Profile>

  datatype Reason = InvalidEmail | MissingName | UnverifiedDomain | DuplicateInFile | SeatLimitReached

  datatype Skipped = Skipped(row: nat, email: Option<string>, reason: Reason)

  datatype BulkUploadResult = BulkUploadResult(created: nat, updated: nat, skipped: seq<Skipped>)

  /** What the upload looks up once: the licence's seats, if limited, and the domains proven to be the client's. */
  datatype Limits = Limits(seatLimit: Option<int>, verifiedDomains: set<string>)

  // ---------- One row ----------

  function Normal(s: Option<string>): Option<string> {
    if s.Some? then Some(Lower(Trim(s.value))) else None
  }

  function TrimOrEmpty(s: Option<string>): string {
    if s.Some? then Trim(s.value) else ""
  }

  /** Something before the only @, and after it a dot with something on both sides; no white space. */
  predicate IsEmail(s: string) {
    exists at, dot :: 0 < at && at + 1 < dot < |s| - 1 && s[at] == '@' && s[dot] == '.'
      && forall k :: 0 <= k < |s| ==> !IsSpace(s[k]) && (s[k] == '@' ==> k == at)
  }

  /** The part of the address between its first and second @, empty when there is none. */
  function DomainOf(email: string): string {
    var at := IndexOf(email, '@');
    if at == |email| then ""
    else
      var rest := email[at + 1..];
      Lower(Trim(rest[..IndexOf(rest, '@')]))
  }

  function ProfileOf(row: EmployeeRow): Profile {
    var department := TrimOrEmpty(row.department);
    Profile(TrimOrEmpty(row.name), if department == "" then None else Some(department))
  }

  /** A row that cannot be used, with the reason, or a usable one. */
  datatype Item = Bad(given: Option<string>, reason: Reason) | Good(email: string, profile: Profile)

  function Classify(row: EmployeeRow, limits: Limits): Item {
    var email := Normal(row.email);
    if email.None? || !IsEmail(email.value) then Bad(email, InvalidEmail)
    else if TrimOrEmpty(row.name) == "" then Bad(email, MissingName)
    else if DomainOf(email.value) !in limits.verifiedDomains then Bad(email, UnverifiedDomain)
    else Good(email.value, ProfileOf(row))
  }

  function Items(rows: seq<EmployeeRow>, limits: Limits): seq<Item> {
    seq(|rows|, i requires 0 <= i < |rows| => Classify(rows[i], limits))
  }

  // ---------- The loop as a fold ----------

  datatype Progress = Progress(roster: Roster, seen: set<string>, seatsUsed: nat, result: BulkUploadResult)

  function Skip(p: Progress, index: nat, email: Option<string>, reason: Reason): Progress {
    p.(result := p.result.(skipped := p.result.skipped + [Skipped(index + 2, email, reason)]))
  }

  predicate SeatFree(seatsUsed: nat, seatLimit: Option<int>) {
    seatLimit.None? || seatsUsed < seatLimit.value
  }

  function Step(p: Progress, index: nat, item: Item, seatLimit: Option<int>): Progress {
    if item.Bad? then Skip(p, index, item.given, item.reason)
    else if item.email in p.seen then Skip(p, index, Some(item.email), DuplicateInFile)
    else
      var p1 := p.(seen := p.seen + {item.email});
      if item.email in p.roster then
        p1.(roster := p.roster[item.email := item.profile], result := p.result.(updated := p.result.updated + 1))
      else if !SeatFree(p.seatsUsed, seatLimit) then Skip(p1, index, Some(item.email), SeatLimitReached)
      else
        p1.(roster := p.roster[item.email := item.profile], seatsUsed := p.seatsUsed + 1,
            result := p.result.(created := p.result.created + 1))
  }

  function Fold(p: Progress, index: nat, items: seq<Item>, seatLimit: Option<int>): Progress
    decreases |items|
  {
    if items == [] then p else Fold(Step(p, index, items[0], seatLimit), index + 1, items[1..], seatLimit)
  }

  lemma FoldNext(p: Progress, i: nat, items: seq<Item>, seatLimit: Option<int>)
    requires i < |items|
    ensures Fold(p, i, items[i..], seatLimit) == Fold(Step(p, i, items[i], seatLimit), i + 1, items[i + 1..], seatLimit)
  {
    assert items[i..][0] == items[i] && items[i..][1..] == items[i + 1..];
  }

  function Start(roster: Roster): Progress {
    Progress(roster, {}, |roster|, BulkUploadResult(0, 0, []))
  }

  function Upload(roster: Roster, rows: seq<EmployeeRow>, limits: Limits): Progress {
    Fold(Start(roster), 0, Items(rows, limits), limits.seatLimit)
  }

  class EmployeesService {
    var roster: Roster

    constructor (roster: Roster)
      ensures this.roster == roster
    {
      this.roster := roster;
    }

    method BulkUpload(rows: seq<EmployeeRow>, limits: Limits) returns (result: BulkUploadResult)
      modifies this
      ensures roster == Upload(old(roster), rows, limits).roster
      ensures result == Upload(old(roster), rows, limits).result
    {
      result := BulkUploadResult(0, 0, []);
      var seen: set<string> := {};
      var seatsUsed: nat := |roster|;
      ghost var items := Items(rows, limits);
      for index := 0 to |rows|
        invariant Fold(Progress(roster, seen, seatsUsed, result), index, items[index..], limits.seatLimit)
                  == Fold(Start(old(roster)), 0, items, limits.seatLimit)
      {
        FoldNext(Progress(roster, seen, seatsUsed, result), index, items, limits.seatLimit);
        seen, seatsUsed, result := Handle(index, rows[index], limits, seen, seatsUsed, result);
      }
    }

    /** The body of the loop. */
    method Handle(index: nat, row: EmployeeRow, limits: Limits, seen0: set<string>, seatsUsed0: nat,
        result0: BulkUploadResult)
      returns (seen: set<string>, seatsUsed: nat, result: BulkUploadResult)
      modifies this
      ensures Progress(roster, seen, seatsUsed, result)
              == Step(Progress(old(roster), seen0, seatsUsed0, result0), index, Classify(row, limits), limits.seatLimit)
    {
      seen, seatsUsed, result := seen0, seatsUsed0, result0;
      var email, defect := Check(row, limits);
      if defect.Some? {
        result := result.(skipped := result.skipped + [Skipped(index + 2, email, defect.value)]);
        return;
      }
      if email.value in seen {
        result := result.(skipped := result.skipped + [Skipped(index + 2, email, DuplicateInFile)]);
        return;
      }
      seen := seen + {email.value};
      if email.value in roster {
        roster := roster[email.value := ProfileOf(row)];
        result := result.(updated := result.updated + 1);
      } else {
        if limits.seatLimit.Some? && seatsUsed >= limits.seatLimit.value {
          result := result.(skipped := result.skipped + [Skipped(index + 2, email, SeatLimitReached)]);
          return;
        }
        roster := roster[email.value := ProfileOf(row)];
        seatsUsed := seatsUsed + 1;
        result := result.(created := result.created + 1);
      }
    }

    /** The checks that do not depend on the other rows, in order. */
    method Check(row: EmployeeRow, limits: Limits) returns (email: Option<string>, defect: Option<Reason>)
      ensures defect.Some? ==> Classify(row, limits) == Bad(email, defect.value)
      ensures defect.None? ==> email.Some? && Classify(row, limits) == Good(email.value, ProfileOf(row))
    {
      email := Normal(row.email);
      if email.None? || !IsEmail(email.value) { return email, Some(InvalidEmail); }
      if TrimOrEmpty(row.name) == "" { return email, Some(MissingName); }
      if DomainOf(email.value) !in limits.verifiedDomains { return email, Some(UnverifiedDomain); }
      defect := None;
    }
  }

  // ---------- Conservation ----------

  function Max(a: int, b: int): int {
    if a >= b then a else b
  }

  function Min(a: int, b: int): int {
    if a <= b then a else b
  }

  /** The addresses of usable rows. */
  function Addresses(items: seq<Item>): set<string> {
    set i | 0 <= i < |items| && items[i].Good? :: items[i].email
  }

  /** The addresses that the file asks to onboard: usable, not yet seen and not on the roster. */
  function NewAddresses(p: Progress, items: seq<Item>): set<string> {
    Addresses(items) - p.seen - p.roster.Keys
  }

  /** How many newcomers the free seats hold. */
  function Onboarded(newcomers: nat, seatsUsed: nat, seatLimit: Option<int>): nat {
    if seatLimit.None? then newcomers else Min(Max(0, seatLimit.value - seatsUsed), newcomers)
  }

  lemma AddressesStep(items: seq<Item>)
    requires items != []
    ensures Addresses(items) == Addresses(items[1..]) + if items[0].Good? then {items[0].email} else {}
  {
    forall e | e in Addresses(items) ensures e in Addresses(items[1..]) || (items[0].Good? && e == items[0].email) {
      var i :| 0 <= i < |items| && items[i].Good? && items[i].email == e;
      if i > 0 { assert items[1..][i - 1] == items[i]; }
    }
    forall e | e in Addresses(items[1..]) ensures e in Addresses(items) {
      var i :| 0 <= i < |items[1..]| && items[1..][i].Good? && items[1..][i].email == e;
      assert items[i + 1] == items[1..][i];
    }
  }

  lemma NewAddressesStep(p: Progress, index: nat, items: seq<Item>, seatLimit: Option<int>)
    requires items != []
    ensures
      var (rest, item) := (NewAddresses(Step(p, index, items[0], seatLimit), items[1..]), items[0]);
      if item.Good? && item.email !in p.seen && item.email !in p.roster
      then item.email !in rest && NewAddresses(p, items) == rest + {item.email}
      else NewAddresses(p, items) == rest
  {
    AddressesStep(items);
  }

  /** The counts and seats of one step. */
  lemma StepCounts(p: Progress, index: nat, item: Item, seatLimit: Option<int>)
    requires p.seatsUsed == |p.roster|
    ensures
      var p1 := Step(p, index, item, seatLimit);
      var newcomer := item.Good? && item.email !in p.seen && item.email !in p.roster;
      && p1.seatsUsed == |p1.roster|
      && p1.seatsUsed - p.seatsUsed == p1.result.created - p.result.created
          == (if newcomer && SeatFree(p.seatsUsed, seatLimit) then 1 else 0)
      && 1 == (p1.result.created - p.result.created) + (p1.result.updated - p.result.updated)
          + (|p1.result.skipped| - |p.result.skipped|)
  {
  }

  /** What the rest of the file adds to the counts and to the roster. */
  ghost predicate Counted(p: Progress, q: Progress, newcomers: nat, rows: nat, seatLimit: Option<int>) {
    && q.seatsUsed == |q.roster|
    && q.seatsUsed - p.seatsUsed == q.result.created - p.result.created == Onboarded(newcomers, p.seatsUsed, seatLimit)
    && rows == (q.result.created - p.result.created) + (q.result.updated - p.result.updated)
        + (|q.result.skipped| - |p.result.skipped|)
  }

  lemma {:induction false} FoldCounts(p: Progress, index: nat, items: seq<Item>, seatLimit: Option<int>)
    requires p.seatsUsed == |p.roster|
    ensures Counted(p, Fold(p, index, items, seatLimit), |NewAddresses(p, items)|, |items|, seatLimit)
    decreases |items|
  {
    if items == [] {
      assert NewAddresses(p, items) == {};
    } else {
      var p1 := Step(p, index, items[0], seatLimit);
      NewAddressesStep(p, index, items, seatLimit);
      StepCounts(p, index, items[0], seatLimit);
      FoldCounts(p1, index + 1, items[1..], seatLimit);
      CountedStep(p, p1, Fold(p1, index + 1, items[1..], seatLimit), |NewAddresses(p1, items[1..])|,
          |NewAddresses(p, items)|, |items| - 1, seatLimit);
    }
  }

  lemma CountedStep(p: Progress, p1: Progress, q: Progress, n1: nat, n: nat, rows: nat, seatLimit: Option<int>)
    requires Counted(p1, q, n1, rows, seatLimit) && (n == n1 || n == n1 + 1)
    requires p1.seatsUsed - p.seatsUsed == p1.result.created - p.result.created
        == (if n == n1 + 1 && SeatFree(p.seatsUsed, seatLimit) then 1 else 0)
    requires 1 == (p1.result.created - p.result.created) + (p1.result.updated - p.result.updated)
        + (|p1.result.skipped| - |p.result.skipped|)
    ensures Counted(p, q, n, rows + 1, seatLimit)
  {
  }

  /**
   Every row is counted once: created, updated or skipped. The created ones are the distinct usable new
   addresses, as far as free seats go, so the roster never grows past the larger of its size and the limit.
   */
  lemma UploadCounts(roster: Roster, rows: seq<EmployeeRow>, limits: Limits)
    ensures
      var q := Upload(roster, rows, limits);
      && |rows| == q.result.created + q.result.updated + |q.result.skipped|
      && q.result.created == Onboarded(|Addresses(Items(rows, limits)) - roster.Keys|, |roster|, limits.seatLimit)
      && |q.roster| == |roster| + q.result.created
      && (limits.seatLimit.Some? ==> |q.roster| <= Max(|roster|, limits.seatLimit.value))
  {
    StartCounts(roster, Items(rows, limits), limits.seatLimit);
  }

  lemma StartCounts(roster: Roster, items: seq<Item>, seatLimit: Option<int>)
    ensures
      var q := Fold(Start(roster), 0, items, seatLimit);
      && |items| == q.result.created + q.result.updated + |q.result.skipped|
      && q.result.created == Onboarded(|Addresses(items) - roster.Keys|, |roster|, seatLimit)
      && |q.roster| == |roster| + q.result.created
  {
    FoldCounts(Start(roster), 0, items, seatLimit);
    assert NewAddresses(Start(roster), items) == Addresses(items) - roster.Keys;
  }

  // ---------- Who ends up on the roster ----------

  /** Nobody leaves the roster, and an address already handled keeps its entry for the rest of the file. */
  lemma {:induction false} FoldKeeps(p: Progress, index: nat, items: seq<Item>, seatLimit: Option<int>, e: string)
    ensures e in p.roster ==> e in Fold(p, index, items, seatLimit).roster
    ensures e in p.seen ==> (e in Fold(p, index, items, seatLimit).roster <==> e in p.roster)
    ensures e in p.seen && e in p.roster ==> Fold(p, index, items, seatLimit).roster[e] == p.roster[e]
    decreases |items|
  {
    if items != [] {
      FoldKeeps(Step(p, index, items[0], seatLimit), index + 1, items[1..], seatLimit, e);
    }
  }

  /** Only addresses of usable rows change, and the first usable row of an address that is on the roster in the end
      decides its entry. */
  lemma {:induction false} FoldDecides(p: Progress, index: nat, items: seq<Item>, seatLimit: Option<int>, e: string)
    ensures e !in Addresses(items) ==>
              (e in Fold(p, index, items, seatLimit).roster <==> e in p.roster)
              && (e in p.roster ==> Fold(p, index, items, seatLimit).roster[e] == p.roster[e])
    ensures e !in p.seen && e in Addresses(items) && e in Fold(p, index, items, seatLimit).roster ==>
              exists i :: 0 <= i < |items| && FirstGood(items, i, e)
                  && Fold(p, index, items, seatLimit).roster[e] == items[i].profile
    decreases |items|
  {
    if items != [] {
      var p1 := Step(p, index, items[0], seatLimit);
      AddressesStep(items);
      FoldDecides(p1, index + 1, items[1..], seatLimit, e);
      if items[0].Good? && items[0].email == e {
        FoldKeeps(p1, index + 1, items[1..], seatLimit, e);
        assert FirstGood(items, 0, e);
      } else if e !in p.seen && e in Addresses(items) && e in Fold(p, index, items, seatLimit).roster {
        var i :| 0 <= i < |items[1..]| && FirstGood(items[1..], i, e)
            && Fold(p, index, items, seatLimit).roster[e] == items[1..][i].profile;
        assert items[i + 1] == items[1..][i];
        FirstGoodShift(items, i, e);
      }
    }
  }

  predicate FirstGood(items: seq<Item>, i: nat, e: string)
    requires i < |items|
  {
    items[i].Good? && items[i].email == e && forall j :: 0 <= j < i ==> !(items[j].Good? && items[j].email == e)
  }

  lemma FirstGoodShift(items: seq<Item>, i: nat, e: string)
    requires items != [] && i < |items[1..]| && FirstGood(items[1..], i, e) && !(items[0].Good? && items[0].email == e)
    ensures FirstGood(items, i + 1, e)
  {
    forall j | 0 <= j < i + 1 ensures !(items[j].Good? && items[j].email == e) {
      if j > 0 { assert items[j] == items[1..][j - 1]; }
    }
  }

  /** After an upload, an address that is on the roster has the entry its first usable row gives, or, without one,
      the entry it had. */
  lemma UploadDecides(roster: Roster, rows: seq<EmployeeRow>, limits: Limits, e: string)
    requires e in Upload(roster, rows, limits).roster
    ensures
      var (items, after) := (Items(rows, limits), Upload(roster, rows, limits).roster);
      if e in Addresses(items) then
        exists i :: 0 <= i < |items| && FirstGood(items, i, e) && after[e] == items[i].profile
      else e in roster && after[e] == roster[e]
  {
    FoldDecides(Start(roster), 0, Items(rows, limits), limits.seatLimit, e);
  }

  // ---------- What becomes of each row ----------

  /** Seats are left for one more newcomer after these rows. */
  predicate SeatsLeft(roster: Roster, before: seq<Item>, seatLimit: Option<int>) {
    seatLimit.None? || |roster| + |Addresses(before) - roster.Keys| < seatLimit.value
  }

  /** Why a row is skipped, if it is, in terms of the file and of the roster as it was before the upload. */
  function Fate(items: seq<Item>, i: nat, roster: Roster, seatLimit: Option<int>): Option<Reason>
    requires i < |items|
  {
    var item := items[i];
    if item.Bad? then Some(item.reason)
    else if item.email in Addresses(items[..i]) then Some(DuplicateInFile)
    else if item.email in roster || SeatsLeft(roster, items[..i], seatLimit) then None
    else Some(SeatLimitReached)
  }

  function EmailOf(item: Item): Option<string> {
    match item case Bad(given, _) => given case Good(email, _) => Some(email)
  }

  /** The entry that row i has in the report. */
  predicate Reported(entry: Skipped, items: seq<Item>, i: nat, roster: Roster, seatLimit: Option<int>)
    requires i < |items|
  {
    var fate := Fate(items, i, roster, seatLimit);
    fate.Some? && entry == Skipped(i + 2, EmailOf(items[i]), fate.value)
  }

  lemma {:induction false} FoldSnoc(p: Progress, index: nat, items: seq<Item>, last: Item, seatLimit: Option<int>)
    ensures Fold(p, index, items + [last], seatLimit)
            == Step(Fold(p, index, items, seatLimit), index + |items|, last, seatLimit)
    decreases |items|
  {
    if items == [] {
      assert [last][1..] == [];
    } else {
      assert (items + [last])[1..] == items[1..] + [last];
      FoldSnoc(Step(p, index, items[0], seatLimit), index + 1, items[1..], last, seatLimit);
    }
  }

  lemma {:induction false} FoldSeen(p: Progress, index: nat, items: seq<Item>, seatLimit: Option<int>)
    ensures Fold(p, index, items, seatLimit).seen == p.seen + Addresses(items)
    decreases |items|
  {
    if items != [] {
      AddressesStep(items);
      FoldSeen(Step(p, index, items[0], seatLimit), index + 1, items[1..], seatLimit);
    }
  }

  /** The report's entry for row i, if it has one. */
  function Entry(items: seq<Item>, i: nat, roster: Roster, seatLimit: Option<int>): seq<Skipped>
    requires i < |items|
  {
    var fate := Fate(items, i, roster, seatLimit);
    if fate.Some? then [Skipped(i + 2, EmailOf(items[i]), fate.value)] else []
  }

  /** What the loop knows after some rows. */
  ghost predicate Knows(p: Progress, roster: Roster, before: seq<Item>, seatLimit: Option<int>, e: string) {
    && p.seen == Addresses(before)
    && (SeatFree(p.seatsUsed, seatLimit) <==> SeatsLeft(roster, before, seatLimit))
    && (e !in Addresses(before) ==> (e in p.roster <==> e in roster))
  }

  lemma PrefixKnows(roster: Roster, before: seq<Item>, seatLimit: Option<int>, e: string)
    ensures Knows(Fold(Start(roster), 0, before, seatLimit), roster, before, seatLimit, e)
  {
    FoldSeen(Start(roster), 0, before, seatLimit);
    FoldCounts(Start(roster), 0, before, seatLimit);
    assert NewAddresses(Start(roster), before) == Addresses(before) - roster.Keys;
    FoldDecides(Start(roster), 0, before, seatLimit, e);
  }

  /** After some rows, the next one is skipped for the reason its fate gives, or not at all. */
  lemma NextFate(p: Progress, roster: Roster, items: seq<Item>, i: nat, seatLimit: Option<int>)
    requires i < |items|
    requires Knows(p, roster, items[..i], seatLimit, if items[i].Good? then items[i].email else "")
    ensures Step(p, i, items[i], seatLimit).result.skipped == p.result.skipped + Entry(items, i, roster, seatLimit)
  {
  }

  predicate InReport(entry: Skipped, items: seq<Item>, n: nat, roster: Roster, seatLimit: Option<int>)
    requires n <= |items|
  {
    exists i: nat :: i < n && Reported(entry, items, i, roster, seatLimit)
  }

  /** The report on the first rows. */
  ghost predicate ReportExact(skipped: seq<Skipped>, items: seq<Item>, n: nat, roster: Roster, seatLimit: Option<int>)
    requires n <= |items|
  {
    && (forall entry :: entry in skipped <==> InReport(entry, items, n, roster, seatLimit))
    && (forall j, k :: 0 <= j < k < |skipped| ==> skipped[j].row < skipped[k].row)
  }

  lemma ReportNext(skipped: seq<Skipped>, items: seq<Item>, n: nat, roster: Roster, seatLimit: Option<int>)
    requires n < |items| && ReportExact(skipped, items, n, roster, seatLimit)
    ensures ReportExact(skipped + Entry(items, n, roster, seatLimit), items, n + 1, roster, seatLimit)
  {
    var more := Entry(items, n, roster, seatLimit);
    forall entry ensures entry in skipped + more <==> InReport(entry, items, n + 1, roster, seatLimit) {
      assert entry in skipped + more <==> entry in skipped || entry in more;
      assert entry in more <==> Reported(entry, items, n, roster, seatLimit);
      assert InReport(entry, items, n + 1, roster, seatLimit)
             <==> InReport(entry, items, n, roster, seatLimit) || Reported(entry, items, n, roster, seatLimit);
    }
    forall entry | entry in skipped ensures entry.row < n + 2 {
      assert InReport(entry, items, n, roster, seatLimit);
    }
  }

  /** The loop's state after the first rows. */
  function After(roster: Roster, items: seq<Item>, n: nat, seatLimit: Option<int>): Progress
    requires n <= |items|
  {
    Fold(Start(roster), 0, items[..n], seatLimit)
  }

  lemma AfterNext(roster: Roster, items: seq<Item>, n: nat, seatLimit: Option<int>)
    requires n < |items|
    ensures After(roster, items, n + 1, seatLimit) == Step(After(roster, items, n, seatLimit), n, items[n], seatLimit)
  {
    assert items[..n + 1] == items[..n] + [items[n]];
    FoldSnoc(Start(roster), 0, items[..n], items[n], seatLimit);
  }

  lemma AfterSkips(roster: Roster, items: seq<Item>, n: nat, seatLimit: Option<int>)
    requires n < |items|
    ensures After(roster, items, n + 1, seatLimit).result.skipped
            == After(roster, items, n, seatLimit).result.skipped + Entry(items, n, roster, seatLimit)
  {
    AfterNext(roster, items, n, seatLimit);
    PrefixKnows(roster, items[..n], seatLimit, if items[n].Good? then items[n].email else "");
    NextFate(After(roster, items, n, seatLimit), roster, items, n, seatLimit);
  }

  ghost predicate ReportedSoFar(roster: Roster, items: seq<Item>, n: nat, seatLimit: Option<int>) {
    n <= |items| && ReportExact(After(roster, items, n, seatLimit).result.skipped, items, n, roster, seatLimit)
  }

  lemma ReportStart(roster: Roster, items: seq<Item>, seatLimit: Option<int>)
    ensures ReportedSoFar(roster, items, 0, seatLimit)
  {
    assert items[..0] == [];
    assert After(roster, items, 0, seatLimit) == Start(roster);
  }

  lemma ReportStep(roster: Roster, items: seq<Item>, n: nat, seatLimit: Option<int>)
    requires n < |items| && ReportedSoFar(roster, items, n, seatLimit)
    ensures ReportedSoFar(roster, items, n + 1, seatLimit)
  {
    AfterSkips(roster, items, n, seatLimit);
    ReportNext(After(roster, items, n, seatLimit).result.skipped, items, n, roster, seatLimit);
  }

  lemma {:induction false} ReportPrefix(roster: Roster, items: seq<Item>, n: nat, seatLimit: Option<int>)
    requires n <= |items|
    ensures ReportedSoFar(roster, items, n, seatLimit)
    decreases n
  {
    if n > 0 {
      ReportPrefix(roster, items, n - 1, seatLimit);
      ReportStep(roster, items, n - 1, seatLimit);
    } else {
      ReportStart(roster, items, seatLimit);
    }
  }

  /**
   The report lists, in file order, exactly the rows that are unusable, repeat the address of an earlier usable
   row, or find no seat left after the distinct new addresses before them; each with its number and reason.
   */
  lemma SkippedExact(roster: Roster, rows: seq<EmployeeRow>, limits: Limits)
    ensures
      var items := Items(rows, limits);
      ReportExact(Upload(roster, rows, limits).result.skipped, items, |items|, roster, limits.seatLimit)
  {
    var items := Items(rows, limits);
    ReportPrefix(roster, items, |items|, limits.seatLimit);
    assert items[..|items|] == items;
  }

  // ---------- Uploading again ----------

  /** A row whose address is settled leaves the roster as it is the second time. */
  lemma StepAgain(p: Progress, again: Progress, index: nat, item: Item, seatLimit: Option<int>)
    requires again.seen == p.seen && again.seatsUsed == |again.roster|
    requires item.Good? && item.email !in p.seen ==>
               if item.email in again.roster then again.roster[item.email] == item.profile
               else !SeatFree(again.seatsUsed, seatLimit)
    ensures
      var again1 := Step(again, index, item, seatLimit);
      again1.roster == again.roster && again1.seatsUsed == again.seatsUsed
          && again1.result.created == again.result.created
      && again1.seen == Step(p, index, item, seatLimit).seen
  {
    if item.Good? && item.email !in p.seen && item.email in again.roster {
      assert again.roster[item.email := item.profile] == again.roster;
    }
  }

  /** Running the same rows again from the roster they led to changes nothing and creates nobody. */
  lemma {:induction false} Rerun(p: Progress, again: Progress, index: nat, items: seq<Item>, seatLimit: Option<int>)
    requires p.seatsUsed == |p.roster| && again.seatsUsed == |again.roster| && again.seen == p.seen
    requires again.roster == Fold(p, index, items, seatLimit).roster
    ensures Fold(again, index, items, seatLimit).roster == again.roster
    ensures Fold(again, index, items, seatLimit).result.created == again.result.created
    decreases |items|
  {
    if items != [] {
      var item, rest := items[0], items[1..];
      var p1 := Step(p, index, item, seatLimit);
      if item.Good? {
        FoldKeeps(p1, index + 1, rest, seatLimit, item.email);
      }
      StepCounts(p, index, item, seatLimit);
      FoldCounts(p1, index + 1, rest, seatLimit);
      StepAgain(p, again, index, item, seatLimit);
      Rerun(p1, Step(again, index, item, seatLimit), index + 1, rest, seatLimit);
    }
  }

  /** Uploading the same file twice is uploading it once. */
  lemma UploadIsIdempotent(roster: Roster, rows: seq<EmployeeRow>, limits: Limits)
    ensures
      var once := Upload(roster, rows, limits).roster;
      Upload(once, rows, limits).roster == once && Upload(once, rows, limits).result.created == 0
  {
    Rerun(Start(roster), Start(Upload(roster, rows, limits).roster), 0, Items(rows, limits), limits.seatLimit);
  }
}
